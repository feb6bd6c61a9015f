/*
 * The library classes of library.rb, built on the Buildable of
 * trunk/buildable.rb (`Buildables.EarlyBuildable`): `Library` chooses
 * between a shared and a static library from its options; the unused
 * `SharedLibrary` and `StaticLibrary` only add their default options.
 *
 * Ruby's `@id + ext` raises when the id is not a String, and `push` raises
 * when the flags are not an Array; both become errors here.
 */
module EarlyLibraries {
  import opened Strings
  import opened RubyValues
  import opened Platform
  import opened Buildables

  /** The options `Library` adds to the Buildable defaults. */
  const LibraryExtras: Hash := [
    ("abi_major", Str("0")),
    ("abi_minor", Str("0")),
    ("enable_shared", Bool(true)),
    ("enable_static", Bool(false))
  ]

  /** The options `SharedLibrary` adds. */
  const SharedExtras: Hash := [
    ("abi_major", Str("0")),
    ("abi_minor", Str("0")),
    ("enable_shared", Bool(true))
  ]

  /** The option `StaticLibrary` adds. */
  const StaticExtras: Hash := [("enable_static", Bool(true))]

  const BothKinds := "Must choose either static or shared library type"
  /** `@id + ext` on an id that is not a String. */
  const IdNotString := "TypeError: the id is not a String"
  /** `push` on flags that are not an Array. */
  const FlagsNotList := "NoMethodError: undefined method `push'"
  /** `Library#build` and `SharedLibrary#build` stop at once. */
  const Fixme := "FIXME"

  /** What the `Library` constructor sets after the Buildable constructor. */
  datatype LibraryFields = LibraryFields(output: string, outputType: string, cflags: RValue, ldflags: RValue)

  /** The linker flags a shared library adds: `-shared`, and `-Wl,-export-dynamic` except on Solaris. */
  function SharedLinkFlags(h: Host): (r: seq<RValue>)
    ensures |r| > 0 && r[0] == Str("-shared")
    ensures Str("-Wl,-export-dynamic") in r <==> !IsSolaris(h)
  {
    if IsSolaris(h) then [Str("-shared")] else [Str("-shared"), Str("-Wl,-export-dynamic")]
  }

  /**
   * The body of `Library.new` after validation: the exclusivity check, then
   * the shared or the static set-up; `cflags` is the value after the
   * Buildable constructor normalised it.
   */
  function LibrarySetup(h: Host, vars: Hash, cflags: RValue): Result<LibraryFields>
  {
    var id := Setting(vars, "id");
    var ldflags := Setting(vars, "ldflags");
    if Truthy(Setting(vars, "enable_shared")) && Truthy(Setting(vars, "enable_static")) then Err(BothKinds)
    else if Truthy(Setting(vars, "enable_shared")) then
      if !id.Str? then Err(IdNotString)
      else if !cflags.List? || !ldflags.List? then Err(FlagsNotList)
      else Ok(LibraryFields(id.s + SharedLibraryExtension(h), SharedLibraryType,
                            List(cflags.items + [Str("-fpic")]), List(ldflags.items + SharedLinkFlags(h))))
    else
      if !id.Str? then Err(IdNotString)
      else Ok(LibraryFields(id.s + StaticLibraryExtension(h), StaticLibraryType, cflags, ldflags))
  }

  /**
   * A library is shared or static, never both: enabling both raises; a shared
   * library's output carries the shared extension, its compiler flags gain
   * `-fpic` and its linker flags gain `SharedLinkFlags`; otherwise the output carries the static extension and the
   * flags are untouched.  Either way `library?` holds and `library_type`
   * names the kind chosen.
   */
  lemma LibraryModes(h: Host, vars: Hash, cflags: RValue)
    requires Setting(vars, "id").Str? && cflags.List? && Setting(vars, "ldflags").List?
    ensures var shared, isStatic := Truthy(Setting(vars, "enable_shared")), Truthy(Setting(vars, "enable_static"));
            var r := LibrarySetup(h, vars, cflags);
            && (r.Err? <==> shared && isStatic)
            && (r.Err? ==> r.error == BothKinds)
            && (r.Ok? ==> IsLibraryType(Some(r.value.outputType)))
            && (r.Ok? ==> (LibraryTypeOf(Some(r.value.outputType)) == Ok(SharedKind) <==> shared))
            && (r.Ok? && shared ==> (&& r.value.output == Setting(vars, "id").s + SharedLibraryExtension(h)
                                     && r.value.cflags.items == cflags.items + [Str("-fpic")]
                                     && r.value.ldflags.items[..|Setting(vars, "ldflags").items|] == Setting(vars, "ldflags").items
                                     && r.value.ldflags.items[|Setting(vars, "ldflags").items|..] == SharedLinkFlags(h)))
            && (r.Ok? && !shared ==> (&& r.value.output == Setting(vars, "id").s + StaticLibraryExtension(h)
                                      && r.value.cflags == cflags && r.value.ldflags == Setting(vars, "ldflags")))
  {
    var ld := Setting(vars, "ldflags").items;
    assert (ld + SharedLinkFlags(h))[..|ld|] == ld;
    assert (ld + SharedLinkFlags(h))[|ld|..] == SharedLinkFlags(h);
  }

  /**
   * `Library.new` builds a Buildable with the library defaults, then applies
   * `LibrarySetup`; the object is returned only when both succeed.
   */
  method NewLibrary(h: Host, opts: Hash, expanded: seq<string>) returns (r: Result<EarlyBuildable>)
    ensures var v := Validated(opts, LibraryExtras);
            r.Err? <==> v.Err? || LibrarySetup(h, v.value, NormalCflags(Setting(v.value, "cflags"))).Err?
    ensures r.Ok? ==> fresh(r.value)
    ensures r.Ok? ==> var vars := Validated(opts, LibraryExtras).value;
                      var f := LibrarySetup(h, vars, NormalCflags(Setting(vars, "cflags"))).value;
                      && r.value.output == Str(f.output) && r.value.outputType == Some(f.outputType)
                      && r.value.cflags == f.cflags && r.value.sources == expanded
                      && Setting(r.value.vars, "ldflags") == f.ldflags
                      && forall k :: k != "ldflags" ==> Setting(r.value.vars, k) == Setting(vars, k)
  {
    var v := Validate(opts, LibraryExtras);
    if v.Err? {
      return Err(v.error);
    }
    var b := new EarlyBuildable(v.value, expanded);
    var setup := ApplySetup(h, b);
    if setup.Err? {
      return Err(setup.error);
    }
    return Ok(b);
  }

  /** The constructor's own statements, on the Buildable the base constructor made. */
  method ApplySetup(h: Host, b: EarlyBuildable) returns (r: Result<()>)
    modifies b
    ensures var f := LibrarySetup(h, old(b.vars), old(b.cflags));
            && (r.Err? <==> f.Err?)
            && (r.Err? ==> r.error == f.error)
            && (r.Ok? ==> b.output == Str(f.value.output) && b.outputType == Some(f.value.outputType)
                          && b.cflags == f.value.cflags && Setting(b.vars, "ldflags") == f.value.ldflags)
    ensures forall k :: k != "ldflags" ==> Setting(b.vars, k) == Setting(old(b.vars), k)
    ensures b.sources == old(b.sources)
  {
    var shared := Truthy(Setting(b.vars, "enable_shared"));
    if shared && Truthy(Setting(b.vars, "enable_static")) {
      return Err(BothKinds);
    }
    var id := Setting(b.vars, "id");
    if !id.Str? {
      return Err(IdNotString);
    }
    if shared {
      r := ApplyShared(h, b, id.s);
    } else {
      b.output := Str(id.s + StaticLibraryExtension(h));
      b.outputType := Some(StaticLibraryType);
      r := Ok(());
    }
  }

  /** The shared branch: output, type, `-fpic`, then the linker flags. */
  method ApplyShared(h: Host, b: EarlyBuildable, id: string) returns (r: Result<()>)
    modifies b
    ensures var ldflags := Setting(old(b.vars), "ldflags");
            && (r.Err? <==> !old(b.cflags).List? || !ldflags.List?)
            && (r.Err? ==> r.error == FlagsNotList)
            && (r.Ok? ==> b.cflags == List(old(b.cflags).items + [Str("-fpic")])
                          && Setting(b.vars, "ldflags") == List(ldflags.items + SharedLinkFlags(h)))
    ensures b.output == Str(id + SharedLibraryExtension(h)) && b.outputType == Some(SharedLibraryType)
    ensures forall k :: k != "ldflags" ==> Setting(b.vars, k) == Setting(old(b.vars), k)
    ensures b.sources == old(b.sources)
  {
    b.output := Str(id + SharedLibraryExtension(h));
    b.outputType := Some(SharedLibraryType);
    var ldflags := Setting(b.vars, "ldflags");
    if !b.cflags.List? || !ldflags.List? {
      return Err(FlagsNotList);
    }
    b.cflags := List(b.cflags.items + [Str("-fpic")]);
    var ld := ldflags.items + [Str("-shared")];
    if !IsSolaris(h) {
      ld := ld + [Str("-Wl,-export-dynamic")];
    }
    SetLdflags(b, ld);
    return Ok(());
  }

  /** `@ldflags = ld`: only that option changes. */
  method SetLdflags(b: EarlyBuildable, ld: seq<RValue>)
    modifies b
    ensures b.vars == HashPut(old(b.vars), "ldflags", List(ld))
    ensures Setting(b.vars, "ldflags") == List(ld)
    ensures forall k :: k != "ldflags" ==> Setting(b.vars, k) == Setting(old(b.vars), k)
    ensures b.output == old(b.output) && b.outputType == old(b.outputType) && b.cflags == old(b.cflags)
    ensures b.sources == old(b.sources)
  {
    ghost var before := b.vars;
    b.vars := HashPut(b.vars, "ldflags", List(ld));
    HashPutGet(before, "ldflags", List(ld), "ldflags");
    forall k | k != "ldflags"
      ensures Setting(b.vars, k) == Setting(before, k)
    {
      HashPutGet(before, "ldflags", List(ld), k);
    }
  }

  /** `SharedLibrary.new`: the output is the id with the shared extension; the flags are untouched. */
  method NewSharedLibrary(h: Host, opts: Hash, expanded: seq<string>) returns (r: Result<EarlyBuildable>)
    ensures var v := Validated(opts, SharedExtras);
            r.Err? <==> v.Err? || !Setting(v.value, "id").Str?
    ensures r.Ok? ==> fresh(r.value)
    ensures r.Ok? ==> var vars := Validated(opts, SharedExtras).value;
                      && r.value.vars == vars
                      && r.value.output == Str(Setting(vars, "id").s + SharedLibraryExtension(h))
                      && r.value.outputType == Some(SharedLibraryType)
  {
    var v := Validate(opts, SharedExtras);
    if v.Err? {
      return Err(v.error);
    }
    var b := new EarlyBuildable(v.value, expanded);
    var id := Setting(b.vars, "id");
    if !id.Str? {
      return Err(IdNotString);
    }
    b.output := Str(id.s + SharedLibraryExtension(h));
    b.outputType := Some(SharedLibraryType);
    return Ok(b);
  }

  /** `StaticLibrary.new`: only the `enable_static` default; no output type is set, so it is not a library. */
  method NewStaticLibrary(opts: Hash, expanded: seq<string>) returns (r: Result<EarlyBuildable>)
    ensures r.Err? <==> Validated(opts, StaticExtras).Err?
    ensures r.Ok? ==> fresh(r.value) && r.value.vars == Validated(opts, StaticExtras).value
    ensures r.Ok? ==> r.value.outputType == None && !IsLibraryType(r.value.outputType)
    ensures r.Ok? ==> r.value.LibraryType() == Err("Not a library")
  {
    var v := Validate(opts, StaticExtras);
    if v.Err? {
      return Err(v.error);
    }
    var b := new EarlyBuildable(v.value, expanded);
    return Ok(b);
  }

  /** `Library#build` and `SharedLibrary#build`: `throw 'FIXME'` before anything else. */
  method Build(b: EarlyBuildable) returns (r: Result<()>)
    ensures r == Err(Fixme)
  {
    return Err(Fixme);
  }
}
