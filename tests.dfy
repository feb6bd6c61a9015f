/*
 * The unit-test programs of lib/makeconf/test.rb and
 * trunk/lib/makeconf/test.rb: a Binary that is never installed or
 * distributed, is compiled for debugging, and is run by `make check`.
 *
 * The parent constructors (`Binary`, `Buildable`) and the parent `build`,
 * `compile` and `link` are not part of this model: the constructor takes
 * the id and flag lists the parent set, and `Build` takes the Makefile the
 * parent returned.
 */
module Tests {
  import opened Strings
  import opened RubyValues
  import opened Platform
  import opened Targets
  import opened Makefiles
  import Installers

  /** The flags a test is compiled with unless on Windows. */
  function DebugFlags(h: Host): (r: seq<RValue>)
    ensures IsWindows(h) <==> r == []
  {
    if IsWindows(h) then [] else [Str("-g"), Str("-O0")]
  }

  /** The suffix that marks an Android host, where tests cannot be run. */
  const AndroidSuffix := "-androideabi"

  /**
   * `host =~ /-androideabi$/`: the suffix occurs at the end of the host
   * triple or just before a line break.
   */
  predicate AndroidHost(triple: string)
  {
    exists i :: 0 <= i <= |triple| - |AndroidSuffix| && SuffixAt(triple, i)
  }

  /** The suffix occurs at `i` and is followed by the end of the text or a line break. */
  predicate SuffixAt(triple: string, i: int)
    requires 0 <= i <= |triple| - |AndroidSuffix|
  {
    && triple[i..i + |AndroidSuffix|] == AndroidSuffix
    && (i + |AndroidSuffix| == |triple| || triple[i + |AndroidSuffix|] == '\n')
  }

  /** A triple ending in `-androideabi` is an Android host. */
  lemma AndroidSuffixMatches(triple: string)
    requires EndsWith(triple, AndroidSuffix)
    ensures AndroidHost(triple)
  {
    var i := |triple| - |AndroidSuffix|;
    assert triple[i..i + |AndroidSuffix|] == triple[|triple| - |AndroidSuffix|..];
    assert SuffixAt(triple, i);
  }

  /** The rule `make check` runs for test `id`. */
  function RunRule(id: string): RValue
  {
    Str("./" + id)
  }

  /**
   * What `build` (lib) and `compile` (trunk) add to the parent's Makefile:
   * `check` depends on the test and runs it, except on an Android host.
   */
  function CheckAdded(m: MakefileState, id: string, triple: string): MakefileState
  {
    if AndroidHost(triple) then m
    else WithRuleAt(WithDependencyAt(m, "check", Str(id)), "check", RunRule(id))
  }

  /**
   * Off Android, `check` gains the test as a dependency (set semantics) and `./<id>`
   * as its last rule, its earlier rules are kept, and nothing else changes;
   * on Android the Makefile is returned as it was.
   */
  lemma CheckAddedSpec(m: MakefileState, id: string, triple: string)
    ensures var r := CheckAdded(m, id, triple);
            && (AndroidHost(triple) ==> r == m)
            && (!AndroidHost(triple) ==>
                  && NoDuplicates(TargetOrEmpty(r, "check").deps)
                  && (forall x :: x in TargetOrEmpty(r, "check").deps <==> x in TargetOrEmpty(m, "check").deps || x == Str(id))
                  && TargetOrEmpty(r, "check").rules == TargetOrEmpty(m, "check").rules + [RunRule(id)]
                  && r.targets.Keys == m.targets.Keys + {"check"}
                  && (forall k :: k in m.targets && k != "check" ==> r.targets[k] == m.targets[k])
                  && r.vars == m.vars && r.mkdirList == m.mkdirList)
  {
    if !AndroidHost(triple) {
      var d := WithDependencyAt(m, "check", Str(id));
      assert TargetOrEmpty(d, "check").rules == TargetOrEmpty(m, "check").rules;
    }
  }

  class Test {
    const id: string
    var installable: bool
    var distributable: bool
    var cflags: seq<RValue>
    var ldflags: seq<RValue>

    /** `Test.new(options)` after the parent set the id and the flag lists. */
    constructor (h: Host, id: string, parentCflags: seq<RValue>, parentLdflags: seq<RValue>)
      ensures this.id == id && !installable && !distributable
      ensures cflags == parentCflags + DebugFlags(h)
      ensures ldflags == parentLdflags
    {
      this.id := id;
      installable := false;
      distributable := false;
      cflags := parentCflags;
      ldflags := parentLdflags;
      if !IsWindows(h) {
        cflags := cflags + [Str("-g"), Str("-O0")];
      }
    }

    /** lib `build` and trunk `compile`: the additions to the Makefile the parent returned. */
    method Build(m: Makefile, triple: string) returns (mk: Makefile)
      modifies m
      ensures mk == m
      ensures m.State() == CheckAdded(old(m.State()), id, triple)
      ensures old(m.Valid()) ==> m.Valid()
    {
      if !AndroidHost(triple) {
        m.AddDependency("check", Str(id));
        m.AddRule("check", RunRule(id));
      }
      return m;
    }

    /** trunk `install`: test programs register nothing with the installer. */
    method Install(installer: Installers.Installer)
      ensures unchanged(installer)
    {
    }

    /** trunk `link`, up to the parent's `link`: off Windows the pair `rpath .` is pushed as one element. */
    method Link(h: Host)
      modifies this
      ensures ldflags == old(ldflags) + (if IsWindows(h) then [] else [List([Str("rpath"), Str(".")])])
      ensures cflags == old(cflags) && installable == old(installable) && distributable == old(distributable)
    {
      if !IsWindows(h) {
        ldflags := ldflags + [List([Str("rpath"), Str(".")])];
      }
    }
  }
}
