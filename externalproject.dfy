/*
 * The external projects of lib/makeconf/externalproject.rb and
 * trunk/lib/makeconf/externalproject.rb: a third-party package with its own
 * build system, built by running `make` in its directory and remembered
 * through a stamp file.
 *
 * Fetching and configuring the package (`configure`, `download`) run
 * commands and are not part of this model; the Buildable constructor is not
 * either: the constructors take the id it sets.
 */
module ExternalProjects {
  import opened Strings
  import opened RubyValues
  import opened Platform
  import opened Targets
  import opened Makefiles
  import Buildables

  /** The stamp file whose target runs the package's own build. */
  function StampName(id: string): (r: string)
    ensures |r| == |id| + 12 && EndsWith(r, "-build-stamp")
  {
    var r := id + "-build-stamp";
    assert r[|r| - 12..] == "-build-stamp";
    r
  }

  /** No fixed target is named like a stamp file. */
  lemma StampNotFixed(id: string)
    ensures StampName(id) !in FixedTargets
  {
  }

  /** The stamp target can be created on the Makefile whose `all` depends on it. */
  lemma StampTargetMade(id: string)
    ensures var m := WithDependencyAt(Initial(), "all", Str(StampName(id)));
            WithTarget(m, StampName(id), List([]), List(StampRules(id))) == Ok(StampBuilt(id))
  {
  }

  /** The stamp target's rules: build the package, then touch the stamp. */
  function StampRules(id: string): seq<RValue>
  {
    [Str("cd " + id + " && make"), Str("touch " + StampName(id))]
  }

  /** The rule trunk adds under `check`; it is pushed as a one-element list. */
  function CheckRule(id: string): RValue
  {
    List([Str("cd " + id + " && make check")])
  }

  /** lib `build`: `all` depends on the stamp, whose target has no dependencies and the two rules. */
  function StampBuilt(id: string): MakefileState
  {
    var m := WithDependencyAt(Initial(), "all", Str(StampName(id)));
    var r := WithTarget(m, StampName(id), List([]), List(StampRules(id)));
    if r.Ok? then r.value else assert false; m
  }

  /** trunk `build`: the same, plus `make check` in the package and removal of the stamp under `clean`. */
  function StampBuiltTrunk(h: Host, id: string): MakefileState
  {
    WithRuleAt(WithRuleAt(StampBuilt(id), "check", CheckRule(id)), "clean", Str(Rm(h, [StampName(id)])))
  }

  /**
   * The lib build's Makefile: the fixed targets and the stamp; `all`
   * depends on the stamp only; the stamp target has no dependencies and
   * runs `make` in the package, then touches the stamp; every other fixed
   * target stays empty and no variable is defined.
   */
  lemma StampBuiltSpec(id: string)
    ensures var m := StampBuilt(id);
            && (forall k :: k in m.targets <==> k in FixedTargets || k == StampName(id))
            && TargetOrEmpty(m, "all").deps == [Str(StampName(id))]
            && TargetOrEmpty(m, "all").rules == []
            && TargetOrEmpty(m, StampName(id)) == TargetState(StampName(id), [], StampRules(id), [], [])
            && (forall k :: k in FixedTargets && k != "all" ==> TargetOrEmpty(m, k) == Empty(k))
            && m.vars == map[]
  {
    var s := StampName(id);
    StampNotFixed(id);
    PhonyNames();
    StampAdded(Initial(), s, StampRules(id));
    SingleDependency(Str(s));
  }

  /** A new target `s` under `all`: `all` gains the dependency, `s` is created, nothing else changes. */
  lemma StampAdded(m: MakefileState, s: string, rules: seq<RValue>)
    requires s != "all" && "all" in m.targets
    ensures var r := WithTarget(WithDependencyAt(m, "all", Str(s)), s, List([]), List(rules));
            && r.Ok?
            && (forall k :: k in r.value.targets <==> k in m.targets || k == s)
            && r.value.targets["all"] == WithDependency(m.targets["all"], Str(s))
            && r.value.targets[s] == TargetState(s, [], rules, [], [])
            && (forall k :: k in m.targets && k != "all" && k != s ==> r.value.targets[k] == m.targets[k])
            && r.value.vars == m.vars
  {
  }

  /** Adding a dependency to an empty target gives exactly that dependency. */
  lemma SingleDependency(d: RValue)
    ensures WithDependency(Empty("all"), d).deps == [d]
  {
    assert Uniq([d]) == [d];
  }

  /** `all`, `check` and `clean` are fixed targets. */
  lemma PhonyNames()
    ensures "all" in FixedTargets && "check" in FixedTargets && "clean" in FixedTargets
  {
    assert FixedTargets[0] == "all" && FixedTargets[1] == "check" && FixedTargets[2] == "clean";
  }

  /** Two rules added under `check` and `clean`: each is appended there and nothing else changes. */
  lemma CheckCleanRules(m: MakefileState, r1: RValue, r2: RValue)
    ensures var m' := WithRuleAt(WithRuleAt(m, "check", r1), "clean", r2);
            && m'.targets.Keys == m.targets.Keys + {"check", "clean"}
            && TargetOrEmpty(m', "check").rules == TargetOrEmpty(m, "check").rules + [r1]
            && TargetOrEmpty(m', "clean").rules == TargetOrEmpty(m, "clean").rules + [r2]
            && (forall k :: k in m.targets && k != "check" && k != "clean" ==> m'.targets[k] == m.targets[k])
            && m'.vars == m.vars
  {
  }

  /**
   * The trunk build's Makefile: as the lib one, and `check` runs `make
   * check` in the package while `clean` removes the stamp.
   */
  lemma StampBuiltTrunkSpec(h: Host, id: string)
    ensures var m := StampBuiltTrunk(h, id);
            && (forall k :: k in m.targets <==> k in FixedTargets || k == StampName(id))
            && TargetOrEmpty(m, "all") == TargetOrEmpty(StampBuilt(id), "all")
            && TargetOrEmpty(m, StampName(id)) == TargetState(StampName(id), [], StampRules(id), [], [])
            && TargetOrEmpty(m, "check").rules == [CheckRule(id)]
            && TargetOrEmpty(m, "clean").rules == [Str(Rm(h, [StampName(id)]))]
            && m.vars == map[]
  {
    var b := StampBuilt(id);
    StampBuiltSpec(id);
    StampNotFixed(id);
    PhonyNames();
    assert TargetOrEmpty(b, "check") == Empty("check");
    assert TargetOrEmpty(b, "clean") == Empty("clean");
    CheckCleanRules(b, CheckRule(id), Str(Rm(h, [StampName(id)])));
  }

  /** The options the Buildable constructor receives: the given ones without `keys`. */
  function Without(options: Hash, keys: seq<string>): Hash
    decreases |keys|
  {
    if keys == [] then options else Without(HashDelete(options, keys[0]), keys[1..])
  }

  /**
   * The Buildable constructor never sees the removed options, so they can
   * not be reported as invalid; every other option reaches it unchanged.
   */
  lemma {:induction false} WithoutGet(options: Hash, keys: seq<string>, k: string)
    ensures HashGet(Without(options, keys), k) == if k in keys then None else HashGet(options, k)
    decreases |keys|
  {
    if keys != [] {
      WithoutGet(HashDelete(options, keys[0]), keys[1..], k);
      HashDeleteGet(options, keys[0], k);
    }
  }

  class ExternalProject {
    const id: string
    /** `@uri`: where `download` would fetch the package from. */
    var uri: RValue
    /** trunk `@configure`: the arguments for the package's `./configure`. */
    var configureArgs: RValue
    /** The options passed on to the Buildable constructor. */
    var passed: Hash
    var installable: bool
    var distributable: bool

    /** lib `ExternalProject.new(options)`: `:uri` is taken out before the parent sees the options. */
    constructor Lib(options: Hash, id: string)
      ensures this.id == id
      ensures uri == Buildables.Setting(options, "uri")
      ensures passed == Without(options, ["uri"])
      ensures configureArgs == Nil && !installable && !distributable
    {
      this.id := id;
      uri := Buildables.Setting(options, "uri");
      passed := HashDelete(options, "uri");
      assert Without(options, ["uri"]) == Without(HashDelete(options, "uri"), []);
      configureArgs := Nil;
      installable := false;
      distributable := false;
    }

    /** trunk `ExternalProject.new(options)`: `:uri` and `:configure` are taken out; a missing configure string is empty. */
    constructor Trunk(options: Hash, id: string)
      ensures this.id == id
      ensures uri == Buildables.Setting(options, "uri")
      ensures configureArgs == if Buildables.Setting(options, "configure").Nil? then Str("") else Buildables.Setting(options, "configure")
      ensures passed == Without(options, ["uri", "configure"])
      ensures !installable && !distributable
    {
      this.id := id;
      uri := Buildables.Setting(options, "uri");
      var rest := HashDelete(options, "uri");
      var conf := Buildables.Setting(rest, "configure");
      HashDeleteGet(options, "uri", "configure");
      var kept := HashDelete(rest, "configure");
      assert ["uri", "configure"][1..] == ["configure"];
      assert Without(options, ["uri", "configure"]) == Without(rest, ["configure"]);
      assert Without(rest, ["configure"]) == Without(kept, []);
      passed := kept;
      if conf.Nil? {
        conf := Str("");
      }
      configureArgs := conf;
      installable := false;
      distributable := false;
    }

    /** lib `build`: a new Makefile with the stamp target. */
    method BuildLib(h: Host) returns (m: Makefile)
      ensures fresh(m) && m.host == h
      ensures m.State() == StampBuilt(id)
    {
      var stamp := StampName(id);
      var rules := StampRules(id);
      StampTargetMade(id);
      m := new Makefile(h);
      m.AddDependency("all", Str(stamp));
      var r := m.AddTarget(stamp, List([]), List(rules));
    }

    /** trunk `build`: the lib build plus the `check` and `clean` rules. */
    method BuildTrunk(h: Host) returns (m: Makefile)
      ensures fresh(m) && m.host == h
      ensures m.State() == StampBuiltTrunk(h, id)
    {
      var check := CheckRule(id);
      var clean := Str(Rm(h, [StampName(id)]));
      m := BuildLib(h);
      m.AddRule("check", check);
      m.AddRule("clean", clean);
    }
  }
}
