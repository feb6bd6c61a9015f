/**
 * The `Buildable` of trunk/lib/makeconf/buildable.rb and the library
 * classes of trunk/lib/makeconf/library.rb built on it.
 *
 * This Buildable keeps its attributes as instance variables that the
 * constructor and `parse` set by name in loops, so the model keeps them as
 * one map from attribute name to value; `localdep` and `sysdep`, which the
 * compiler fills, are maps of their own.
 */
module TrunkBuildables {
  import opened Strings
  import opened RubyValues
  import opened Platform
  import Buildables

  /** The attributes `parse` copies when the YAML value is not nil. */
  const ScalarKeys: seq<string> := ["name", "enable", "distributable", "installable", "extension", "topdir", "rpath"]

  /** The attributes `parse` copies whenever the YAML has the key, nil included. */
  const ListKeys: seq<string> := ["cflags", "ldflags", "ldadd", "depends", "sources"]

  /** The instance variables right after `Buildable.new(id)`. */
  function InitialIvars(id: RValue): (r: map<string, RValue>)
    ensures r.Keys == {"id", "enable", "distributable", "installable", "extension", "cflags", "ldflags", "ldadd",
                       "rpath", "sources", "topdir", "depends", "output", "output_type"}
    ensures r["id"] == id && r["output"] == id && r["output_type"] == Nil
    ensures r["enable"] == Bool(true) && r["distributable"] == Bool(true) && r["installable"] == Bool(true)
    ensures r["rpath"] == Str("") && r["cflags"] == List([]) && r["ldflags"] == List([]) && r["ldadd"] == List([])
    ensures r["sources"] == List([])
  {
    map["id" := id, "enable" := Bool(true), "distributable" := Bool(true), "installable" := Bool(true),
        "extension" := Str(""), "cflags" := List([]), "ldflags" := List([]), "ldadd" := List([]),
        "rpath" := Str(""), "sources" := List([]), "topdir" := Str(""), "depends" := List([]),
        "output" := id, "output_type" := Nil]
  }

  /** `instance_variable_set(k, v) unless v.nil?` for each key in turn. */
  function CopyNonNil(iv: map<string, RValue>, yaml: Hash, ks: seq<string>): map<string, RValue>
  {
    if ks == [] then iv
    else
      var prev := CopyNonNil(iv, yaml, ks[..|ks| - 1]);
      var k := ks[|ks| - 1];
      match HashGet(yaml, k)
      case Some(v) => if v.Nil? then prev else prev[k := v]
      case None => prev
  }

  /** `instance_variable_set(k, yaml[k]) if yaml.has_key? k` for each key in turn. */
  function CopyPresent(iv: map<string, RValue>, yaml: Hash, ks: seq<string>): map<string, RValue>
  {
    if ks == [] then iv
    else
      var prev := CopyPresent(iv, yaml, ks[..|ks| - 1]);
      var k := ks[|ks| - 1];
      match HashGet(yaml, k)
      case Some(v) => prev[k := v]
      case None => prev
  }

  /** The instance variables after `parse(yaml)`. */
  function Parsed(iv: map<string, RValue>, yaml: Hash): map<string, RValue>
  {
    CopyPresent(CopyNonNil(iv, yaml, ScalarKeys), yaml, ListKeys)
  }

  /** A key is overwritten by the non-nil copy exactly when it is listed and the YAML value is not nil. */
  lemma {:induction false} CopyNonNilAt(iv: map<string, RValue>, yaml: Hash, ks: seq<string>, k: string)
    ensures k in CopyNonNil(iv, yaml, ks) <==> k in iv || (k in ks && HashGet(yaml, k).Some? && !HashGet(yaml, k).value.Nil?)
    ensures k in ks && HashGet(yaml, k).Some? && !HashGet(yaml, k).value.Nil? ==> CopyNonNil(iv, yaml, ks)[k] == HashGet(yaml, k).value
    ensures !(k in ks && HashGet(yaml, k).Some? && !HashGet(yaml, k).value.Nil?) && k in iv ==> CopyNonNil(iv, yaml, ks)[k] == iv[k]
    decreases |ks|
  {
    if ks != [] {
      var init := ks[..|ks| - 1];
      CopyNonNilAt(iv, yaml, init, k);
      assert ks == init + [ks[|ks| - 1]];
    }
  }

  /** A key is overwritten by the present-key copy exactly when it is listed and the YAML has it. */
  lemma {:induction false} CopyPresentAt(iv: map<string, RValue>, yaml: Hash, ks: seq<string>, k: string)
    ensures k in CopyPresent(iv, yaml, ks) <==> k in iv || (k in ks && HashGet(yaml, k).Some?)
    ensures k in ks && HashGet(yaml, k).Some? ==> CopyPresent(iv, yaml, ks)[k] == HashGet(yaml, k).value
    ensures !(k in ks && HashGet(yaml, k).Some?) && k in iv ==> CopyPresent(iv, yaml, ks)[k] == iv[k]
    decreases |ks|
  {
    if ks != [] {
      var init := ks[..|ks| - 1];
      CopyPresentAt(iv, yaml, init, k);
      assert ks == init + [ks[|ks| - 1]];
    }
  }

  /**
   * What `parse` does to one attribute: a scalar attribute takes a non-nil
   * YAML value and keeps its old value otherwise; a list attribute takes the
   * YAML value whenever the key is there, even a nil one; every other
   * attribute is left as it was.
   */
  lemma ParsedAttribute(iv: map<string, RValue>, yaml: Hash, k: string)
    requires k in iv
    ensures k in Parsed(iv, yaml)
    ensures k in ScalarKeys ==>
              Parsed(iv, yaml)[k] == (if HashGet(yaml, k).Some? && !HashGet(yaml, k).value.Nil? then HashGet(yaml, k).value else iv[k])
    ensures k in ListKeys ==>
              Parsed(iv, yaml)[k] == (if HashGet(yaml, k).Some? then HashGet(yaml, k).value else iv[k])
    ensures k !in ScalarKeys && k !in ListKeys ==> Parsed(iv, yaml)[k] == iv[k]
  {
    var mid := CopyNonNil(iv, yaml, ScalarKeys);
    CopyNonNilAt(iv, yaml, ScalarKeys, k);
    CopyPresentAt(mid, yaml, ListKeys, k);
    if k in ScalarKeys {
      assert k !in ListKeys;
    }
  }

  /** `parse` adds only the scalar attributes with a non-nil value and the list attributes that are present. */
  lemma ParsedKeys(iv: map<string, RValue>, yaml: Hash, k: string)
    ensures k in Parsed(iv, yaml) <==>
              k in iv || (k in ScalarKeys && HashGet(yaml, k).Some? && !HashGet(yaml, k).value.Nil?)
              || (k in ListKeys && HashGet(yaml, k).Some?)
  {
    CopyNonNilAt(iv, yaml, ScalarKeys, k);
    CopyPresentAt(CopyNonNil(iv, yaml, ScalarKeys), yaml, ListKeys, k);
  }

  /** Parsing the same YAML twice is the same as parsing it once. */
  lemma ParseIdempotent(iv: map<string, RValue>, yaml: Hash)
    ensures Parsed(Parsed(iv, yaml), yaml) == Parsed(iv, yaml)
  {
    var once := Parsed(iv, yaml);
    forall k | k in Parsed(once, yaml)
      ensures k in once && Parsed(once, yaml)[k] == once[k]
    {
      ParsedKeys(once, yaml, k);
      ParsedKeys(iv, yaml, k);
      ParsedAttribute(once, yaml, k);
      if k in iv {
        ParsedAttribute(iv, yaml, k);
      } else {
        CopyNonNilAt(iv, yaml, ScalarKeys, k);
        CopyPresentAt(CopyNonNil(iv, yaml, ScalarKeys), yaml, ListKeys, k);
      }
    }
    forall k | k in once
      ensures k in Parsed(once, yaml)
    {
      ParsedKeys(once, yaml, k);
    }
  }

  /** `@output_type`, when it is a String. */
  function OutputTypeOf(iv: map<string, RValue>): Option<string>
  {
    if "output_type" in iv && iv["output_type"].Str? then Some(iv["output_type"].s) else None
  }

  class Buildable {
    /** The instance variables the accessors read, by attribute name. */
    var ivars: map<string, RValue>
    /** Local and system headers of each source, filled in by the compiler's `makedepends`. */
    var localdep: map<string, seq<string>>
    var sysdep: map<string, seq<string>>

    /** `Buildable.new(id)`: the defaults, output named after the id, no output type. */
    constructor (id: RValue)
      ensures ivars == InitialIvars(id)
      ensures localdep == map[] && sysdep == map[]
    {
      ivars := InitialIvars(id);
      localdep := map[];
      sysdep := map[];
    }

    /** `parse(yaml)`: the two copy loops; it returns the receiver. */
    method Parse(yaml: Hash) returns (self: Buildable)
      modifies `ivars
      ensures self == this
      ensures ivars == Parsed(old(ivars), yaml)
    {
      ghost var start := ivars;
      for i := 0 to |ScalarKeys|
        invariant ivars == CopyNonNil(start, yaml, ScalarKeys[..i])
      {
        assert ScalarKeys[..i + 1][..i] == ScalarKeys[..i];
        var v := HashGet(yaml, ScalarKeys[i]);
        if v.Some? && !v.value.Nil? {
          ivars := ivars[ScalarKeys[i] := v.value];
        }
      }
      assert ScalarKeys[..|ScalarKeys|] == ScalarKeys;
      ghost var mid := ivars;
      for i := 0 to |ListKeys|
        invariant ivars == CopyPresent(mid, yaml, ListKeys[..i])
      {
        assert ListKeys[..i + 1][..i] == ListKeys[..i];
        var v := HashGet(yaml, ListKeys[i]);
        if v.Some? {
          ivars := ivars[ListKeys[i] := v.value];
        }
      }
      assert ListKeys[..|ListKeys|] == ListKeys;
      self := this;
    }

    /** `library?` */
    predicate IsLibrary()
      reads this
    {
      Buildables.IsLibraryType(OutputTypeOf(ivars))
    }

    /** `library_type`: `:shared`, `:static`, or the "Not a library" throw. */
    function LibraryType(): (r: Result<Buildables.LibraryKind>)
      reads this
      ensures r.Ok? <==> IsLibrary()
      ensures r.Err? ==> r.error == "Not a library"
    {
      Buildables.LibraryTypeOf(OutputTypeOf(ivars))
    }
  }

  // ---------------------------------------------------------------------
  // trunk/lib/makeconf/library.rb
  // ---------------------------------------------------------------------

  /** The output of a `SharedLibrary`: `lib`, the id, the shared extension. */
  function SharedOutput(h: Host, id: string): string
  {
    "lib" + id + SharedLibraryExtension(h)
  }

  /** The output of a `StaticLibrary`: the id and the static extension, no `lib` prefix. */
  function StaticOutput(h: Host, id: string): string
  {
    id + StaticLibraryExtension(h)
  }

  /** The shared and the static library of one id never share an output name. */
  lemma LibraryOutputsApart(h: Host, id: string)
    ensures SharedOutput(h, id) != StaticOutput(h, id)
    ensures StartsWith(SharedOutput(h, id), "lib")
    ensures EndsWith(SharedOutput(h, id), SharedLibraryExtension(h))
    ensures EndsWith(StaticOutput(h, id), StaticLibraryExtension(h))
  {
    var s := SharedOutput(h, id);
    var t := StaticOutput(h, id);
    assert |s| != |t|;
    assert s == "lib" + (id + SharedLibraryExtension(h));
    assert s[..3] == "lib";
    assert s[|s| - |SharedLibraryExtension(h)|..] == SharedLibraryExtension(h);
    assert t[|t| - |StaticLibraryExtension(h)|..] == StaticLibraryExtension(h);
  }

  /**
   * `SharedLibrary.new(options)`: the Buildable defaults, then the output
   * name and type. The id must be a String for `'lib' + id`.
   */
  method NewSharedLibrary(h: Host, id: string) returns (b: Buildable)
    ensures fresh(b)
    ensures b.ivars == InitialIvars(Str(id))["output" := Str(SharedOutput(h, id))]["output_type" := Str(Buildables.SharedLibraryType)]
    ensures b.localdep == map[] && b.sysdep == map[]
  {
    b := new Buildable(Str(id));
    b.ivars := b.ivars["output" := Str(SharedOutput(h, id))];
    b.ivars := b.ivars["output_type" := Str(Buildables.SharedLibraryType)];
  }

  /** `StaticLibrary.new(options)`: the Buildable defaults, then the output name and type. */
  method NewStaticLibrary(h: Host, id: string) returns (b: Buildable)
    ensures fresh(b)
    ensures b.ivars == InitialIvars(Str(id))["output" := Str(StaticOutput(h, id))]["output_type" := Str(Buildables.StaticLibraryType)]
    ensures b.localdep == map[] && b.sysdep == map[]
  {
    b := new Buildable(Str(id));
    b.ivars := b.ivars["output" := Str(StaticOutput(h, id))];
    b.ivars := b.ivars["output_type" := Str(Buildables.StaticLibraryType)];
  }

  /** `Library.new(options)`: exactly a shared and a static library from the same options. */
  method NewLibrary(h: Host, id: string) returns (parts: seq<Buildable>)
    ensures |parts| == 2 && fresh(parts[0]) && fresh(parts[1]) && parts[0] != parts[1]
    ensures parts[0].LibraryType() == Ok(Buildables.SharedKind)
    ensures parts[1].LibraryType() == Ok(Buildables.StaticKind)
    ensures "output" in parts[0].ivars && parts[0].ivars["output"] == Str(SharedOutput(h, id))
    ensures "output" in parts[1].ivars && parts[1].ivars["output"] == Str(StaticOutput(h, id))
  {
    var shared := NewSharedLibrary(h, id);
    var archive := NewStaticLibrary(h, id);
    parts := [shared, archive];
  }
}
