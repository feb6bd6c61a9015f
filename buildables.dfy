/**
 * Buildable: the options every library, program or test starts from.
 *
 * The constructor of lib/makeconf/buildable.rb (and the identical one of
 * trunk/buildable.rb) walks the default options, merged with the
 * subclass's extra options, and takes each value from the caller's hash
 * when the key is there and from the default otherwise; a nil value
 * raises "Missing argument".  Then every key of the caller's hash must be
 * one of those options, or "Invalid argument" is raised.
 *
 * Source globbing, the existence check and reading the sources are file
 * system work: the expanded source list and the file contents are given.
 */
module Buildables {
  import opened Strings
  import opened RubyValues
  import opened Headers

  /** The default options, in the order the constructor visits them. */
  const Defaults: Hash := [
    ("id", Nil),
    ("distributable", Bool(true)),
    ("installable", Bool(true)),
    ("extension", Str("")),
    ("cflags", List([])),
    ("ldflags", List([])),
    ("ldadd", List([])),
    ("rpath", Str("")),
    ("sources", List([])),
    ("depends", List([]))
  ]

  function MissingArgument(k: string): string
  {
    "Missing argument: `" + k + "'"
  }

  function InvalidArgument(k: string): string
  {
    "Invalid argument: `" + k + "'"
  }

  /** `h.has_key?(k) ? h[k] : v` */
  function Resolved(h: Hash, k: string, v: RValue): RValue
  {
    match HashGet(h, k)
    case Some(x) => x
    case None => v
  }

  /** The first loop: every option resolved in order, or the first one that resolves to nil. */
  function Resolve(d: Hash, h: Hash): Result<Hash>
  {
    if d == [] then Ok([])
    else
      match Resolve(d[..|d| - 1], h)
      case Err(e) => Err(e)
      case Ok(vs) =>
        var (k, v) := d[|d| - 1];
        if Resolved(h, k, v).Nil? then Err(MissingArgument(k)) else Ok(vs + [(k, Resolved(h, k, v))])
  }

  /** The second loop: the first key of `h` that is not a known option. */
  function FirstUnknown(h: Hash, known: seq<string>): Option<string>
  {
    if h == [] then None
    else
      match FirstUnknown(h[..|h| - 1], known)
      case Some(k) => Some(k)
      case None => if h[|h| - 1].0 in known then None else Some(h[|h| - 1].0)
  }

  /** The options the constructor sets, or the error it raises. */
  function Validated(h: Hash, extra: Hash): Result<Hash>
  {
    var d := HashMerge(Defaults, extra);
    match Resolve(d, h)
    case Err(e) => Err(e)
    case Ok(vs) =>
      match FirstUnknown(h, HashKeys(d))
      case Some(k) => Err(InvalidArgument(k))
      case None => Ok(vs)
  }

  /** The two validation loops of the constructor. */
  method Validate(h: Hash, extra: Hash) returns (r: Result<Hash>)
    ensures r == Validated(h, extra)
  {
    var d := HashMerge(Defaults, extra);
    var vars: Hash := [];
    var i := 0;
    while i < |d|
      invariant 0 <= i <= |d|
      invariant Resolve(d[..i], h) == Ok(vars)
    {
      assert d[..i + 1][..i] == d[..i];
      var (k, v) := d[i];
      var x := if HashGet(h, k).Some? then HashGet(h, k).value else v;
      if x.Nil? {
        assert Resolve(d[..i + 1], h) == Err(MissingArgument(k));
        ResolvePrefixErr(d, h, i + 1);
        return Err(MissingArgument(k));
      }
      vars := vars + [(k, x)];
      i := i + 1;
    }
    assert d[..i] == d;
    var known := HashKeys(d);
    var j := 0;
    while j < |h|
      invariant 0 <= j <= |h|
      invariant FirstUnknown(h[..j], known).None?
    {
      assert h[..j + 1][..j] == h[..j];
      if h[j].0 !in known {
        assert FirstUnknown(h[..j + 1], known) == Some(h[j].0);
        FirstUnknownPrefix(h, known, j + 1);
        return Err(InvalidArgument(h[j].0));
      }
      j := j + 1;
    }
    assert h[..j] == h;
    return Ok(vars);
  }

  /** Once a prefix of the options fails, the whole walk fails with the same error. */
  lemma {:induction false} ResolvePrefixErr(d: Hash, h: Hash, n: nat)
    requires n <= |d| && Resolve(d[..n], h).Err?
    ensures Resolve(d, h) == Resolve(d[..n], h)
    decreases |d| - n
  {
    if n < |d| {
      assert d[..n + 1][..n] == d[..n];
      ResolvePrefixErr(d, h, n + 1);
    } else {
      assert d[..n] == d;
    }
  }

  lemma {:induction false} FirstUnknownPrefix(h: Hash, known: seq<string>, n: nat)
    requires n <= |h| && FirstUnknown(h[..n], known).Some?
    ensures FirstUnknown(h, known) == FirstUnknown(h[..n], known)
    decreases |h| - n
  {
    if n < |h| {
      assert h[..n + 1][..n] == h[..n];
      FirstUnknownPrefix(h, known, n + 1);
    } else {
      assert h[..n] == h;
    }
  }

  /**
   * The walk succeeds exactly when no option resolves to nil; it then
   * holds every option, in order, with the caller's value winning over
   * the default.
   */
  lemma {:induction false} ResolveOk(d: Hash, h: Hash)
    ensures Resolve(d, h).Ok? <==> forall i :: 0 <= i < |d| ==> !Resolved(h, d[i].0, d[i].1).Nil?
    ensures Resolve(d, h).Ok? ==> |Resolve(d, h).value| == |d|
    ensures Resolve(d, h).Ok? ==> forall i :: 0 <= i < |d| ==>
      Resolve(d, h).value[i] == (d[i].0, Resolved(h, d[i].0, d[i].1))
    decreases |d|
  {
    if d != [] {
      var init := d[..|d| - 1];
      ResolveOk(init, h);
      assert forall i :: 0 <= i < |init| ==> init[i] == d[i];
    }
  }

  /** The first option (in visiting order) that resolves to nil is the one reported missing. */
  lemma {:induction false} ResolveFirstMissing(d: Hash, h: Hash, i: nat)
    requires i < |d| && Resolved(h, d[i].0, d[i].1).Nil?
    requires forall j :: 0 <= j < i ==> !Resolved(h, d[j].0, d[j].1).Nil?
    ensures Resolve(d, h) == Err(MissingArgument(d[i].0))
    decreases |d|
  {
    var init := d[..|d| - 1];
    if i < |init| {
      assert forall j :: 0 <= j <= i ==> init[j] == d[j];
      ResolveFirstMissing(init, h, i);
    } else {
      ResolveOk(init, h);
      assert forall j :: 0 <= j < |init| ==> init[j] == d[j];
    }
  }

  /** The reported key is the first key of `h` that is not known. */
  lemma {:induction false} FirstUnknownSpec(h: Hash, known: seq<string>)
    ensures FirstUnknown(h, known).None? <==> forall i :: 0 <= i < |h| ==> h[i].0 in known
    ensures FirstUnknown(h, known).Some? ==>
      exists i :: 0 <= i < |h| && h[i].0 == FirstUnknown(h, known).value && h[i].0 !in known && forall j :: 0 <= j < i ==> h[j].0 in known
    decreases |h|
  {
    if h != [] {
      var init := h[..|h| - 1];
      FirstUnknownSpec(init, known);
      assert forall i :: 0 <= i < |init| ==> init[i] == h[i];
      if FirstUnknown(init, known).Some? {
        var i :| 0 <= i < |init| && init[i].0 == FirstUnknown(init, known).value
          && init[i].0 !in known && forall j :: 0 <= j < i ==> init[j].0 in known;
        assert h[i] == init[i];
      }
    }
  }

  /** Merging keeps the first option in first place. */
  lemma {:induction false} MergedFirst(d: Hash, extra: Hash)
    requires d != []
    ensures |HashMerge(d, extra)| > 0 && HashMerge(d, extra)[0].0 == d[0].0
    decreases |extra|
  {
    if extra != [] {
      HashPutHead(d, extra[0].0, extra[0].1);
      MergedFirst(HashPut(d, extra[0].0, extra[0].1), extra[1..]);
    }
  }

  lemma HashPutHead(d: Hash, k: string, v: RValue)
    requires d != []
    ensures |HashPut(d, k, v)| > 0 && HashPut(d, k, v)[0].0 == d[0].0
  {
  }

  /** An option the extras do not mention keeps its default. */
  lemma {:induction false} MergedKeepsDefault(d: Hash, extra: Hash, k: string)
    requires HashGet(extra, k).None?
    ensures HashGet(HashMerge(d, extra), k) == HashGet(d, k)
    decreases |extra|
  {
    if extra != [] {
      HashPutGet(d, extra[0].0, extra[0].1, k);
      MergedKeepsDefault(HashPut(d, extra[0].0, extra[0].1), extra[1..], k);
    }
  }

  /** A constructor call without `:id`, or with a nil one, raises "Missing argument: `id'" when no extra option supplies an id. */
  lemma MissingId(h: Hash, extra: Hash)
    requires Resolved(h, "id", Nil).Nil?
    requires HashGet(extra, "id").None?
    ensures Validated(h, extra) == Err(MissingArgument("id"))
  {
    var d := HashMerge(Defaults, extra);
    MergedKeepsDefault(Defaults, extra, "id");
    assert HashGet(Defaults, "id") == Some(Nil);
    MergedFirst(Defaults, extra);
    HashGetFirst(d);
    ResolveFirstMissing(d, h, 0);
  }

  lemma HashGetFirst(d: Hash)
    requires d != []
    ensures HashGet(d, d[0].0) == Some(d[0].1)
  {
  }

  /** The options a valid call sets: all defaults and extras, each from the caller when given. */
  lemma ValidatedSpec(h: Hash, extra: Hash)
    ensures var d := HashMerge(Defaults, extra);
      Validated(h, extra).Ok? <==>
        (forall i :: 0 <= i < |d| ==> !Resolved(h, d[i].0, d[i].1).Nil?)
        && (forall i :: 0 <= i < |h| ==> h[i].0 in HashKeys(d))
    ensures var d := HashMerge(Defaults, extra);
      Validated(h, extra).Ok? ==>
        |Validated(h, extra).value| == |d| &&
        forall i :: 0 <= i < |d| ==> Validated(h, extra).value[i] == (d[i].0, Resolved(h, d[i].0, d[i].1))
  {
    var d := HashMerge(Defaults, extra);
    ResolveOk(d, h);
    FirstUnknownSpec(h, HashKeys(d));
  }

  /** `@cflags = [@cflags.split(' ')] if @cflags.is_a? String` */
  function NormalCflags(v: RValue): (r: RValue)
    ensures v.Str? ==> r == List([List(Strs(Words(v.s)))])
    ensures !v.Str? ==> r == v
  {
    if v.Str? then List([List(Strs(Words(v.s)))]) else v
  }

  /** The option value, or nil when the options lack the key. */
  function Setting(vars: Hash, k: string): RValue
  {
    Resolved(vars, k, Nil)
  }

  const SharedLibraryType: string := "shared library"
  const StaticLibraryType: string := "static library"

  datatype LibraryKind = SharedKind | StaticKind

  /** `library?` */
  predicate IsLibraryType(t: Option<string>)
  {
    t == Some(SharedLibraryType) || t == Some(StaticLibraryType)
  }

  /** `library_type`: `:shared` or `:static`, and "Not a library" for anything else. */
  function LibraryTypeOf(t: Option<string>): (r: Result<LibraryKind>)
    ensures r.Ok? <==> IsLibraryType(t)
    ensures r.Err? ==> r.error == "Not a library"
    ensures r == Ok(SharedKind) <==> t == Some(SharedLibraryType)
    ensures r == Ok(StaticKind) <==> t == Some(StaticLibraryType)
  {
    if t == Some(SharedLibraryType) then Ok(SharedKind)
    else if t == Some(StaticLibraryType) then Ok(StaticKind)
    else Err("Not a library")
  }

  /** `binary?`: the output type mentions "binary"; nil never matches. */
  predicate IsBinaryType(t: Option<string>)
  {
    t.Some? && Contains(t.value, "binary")
  }

  /** lib/makeconf/buildable.rb */
  class Buildable {
    /** The instance variables the option loop set, in visiting order. */
    var vars: Hash
    var cflags: RValue
    var output: RValue
    var outputType: Option<string>
    var sources: seq<string>
    var localdep: map<string, seq<string>>
    var sysdep: map<string, seq<string>>

    /** The constructor after validation succeeded, with the sources already expanded by the glob. */
    constructor (vars: Hash, expanded: seq<string>)
      ensures this.vars == vars && sources == expanded
      ensures cflags == NormalCflags(Setting(vars, "cflags"))
      ensures output == Setting(vars, "id") && outputType == None
      ensures localdep == map[] && sysdep == map[]
    {
      this.vars := vars;
      cflags := NormalCflags(Setting(vars, "cflags"));
      output := Setting(vars, "id");
      outputType := None;
      sources := expanded;
      localdep := map[];
      sysdep := map[];
    }

    predicate IsLibrary()
      reads this
    {
      IsLibraryType(outputType)
    }

    function LibraryType(): Result<LibraryKind>
      reads this
    {
      LibraryTypeOf(outputType)
    }

    predicate IsBinary()
      reads this
    {
      IsBinaryType(outputType)
    }

    predicate Distributable()
      reads this
    {
      Truthy(Setting(vars, "distributable"))
    }
  }

  /** `Buildable.new(h, extra)`: validation, then the fields; nothing is built when it raises. */
  method NewBuildable(h: Hash, extra: Hash, expanded: seq<string>) returns (r: Result<Buildable>)
    ensures r.Err? <==> Validated(h, extra).Err?
    ensures r.Err? ==> r.error == Validated(h, extra).error
    ensures r.Ok? ==> fresh(r.value) && r.value.vars == Validated(h, extra).value
    ensures r.Ok? ==> r.value.outputType == None && r.value.localdep == map[]
  {
    var v := Validate(h, extra);
    if v.Err? {
      return Err(v.error);
    }
    var b := new Buildable(v.value, expanded);
    return Ok(b);
  }

  /** trunk/buildable.rb: the same constructor, without header maps, and a scan for system headers. */
  class EarlyBuildable {
    var vars: Hash
    var cflags: RValue
    var output: RValue
    var outputType: Option<string>
    var sources: seq<string>

    constructor (vars: Hash, expanded: seq<string>)
      ensures this.vars == vars && sources == expanded
      ensures cflags == NormalCflags(Setting(vars, "cflags"))
      ensures output == Setting(vars, "id") && outputType == None
    {
      this.vars := vars;
      cflags := NormalCflags(Setting(vars, "cflags"));
      output := Setting(vars, "id");
      outputType := None;
      sources := expanded;
    }

    function LibraryType(): Result<LibraryKind>
      reads this
    {
      LibraryTypeOf(outputType)
    }

    /**
     * `system_headers`: the names of all `#include <...>` lines (leading
     * white space allowed) of all sources, sorted and without repetition.
     * `files` holds each source's lines.
     */
    method SystemHeaders(files: map<string, seq<string>>) returns (res: seq<string>)
      requires forall s :: s in sources ==> s in files
      ensures res == SortUniq(AllCaptures(sources, files, Include(true)))
    {
      var srcs := sources;
      var buf: seq<string> := [];
      var i := 0;
      while i < |srcs|
        invariant 0 <= i <= |srcs|
        invariant buf == AllCaptures(srcs[..i], files, Include(true))
      {
        AllCapturesSnoc(srcs, files, Include(true), i);
        var found := Scan(files[srcs[i]], Include(true));
        buf := buf + found;
        i := i + 1;
      }
      assert srcs[..i] == srcs;
      res := SortUniq(buf);
    }
  }

  /** One more source adds its captures at the end. */
  lemma AllCapturesSnoc(srcs: seq<string>, files: map<string, seq<string>>, p: LinePattern, i: nat)
    requires i < |srcs| && forall s :: s in srcs ==> s in files
    ensures srcs[i] in files
    ensures AllCaptures(srcs[..i + 1], files, p) == AllCaptures(srcs[..i], files, p) + Captures(files[srcs[i]], p)
  {
    assert srcs[..i + 1][..i] == srcs[..i];
    assert srcs[..i + 1][i] == srcs[i];
  }

  /** The captures of every file in turn. */
  function AllCaptures(srcs: seq<string>, files: map<string, seq<string>>, p: LinePattern): seq<string>
    requires forall s :: s in srcs ==> s in files
  {
    if srcs == [] then []
    else AllCaptures(srcs[..|srcs| - 1], files, p) + Captures(files[srcs[|srcs| - 1]], p)
  }

  /** Every reported header comes from some source. */
  lemma {:induction false} AllCapturesFrom(srcs: seq<string>, files: map<string, seq<string>>, p: LinePattern, x: string)
    returns (i: nat)
    requires forall s :: s in srcs ==> s in files
    requires x in AllCaptures(srcs, files, p)
    ensures i < |srcs| && x in Captures(files[srcs[i]], p)
    decreases |srcs|
  {
    var init := srcs[..|srcs| - 1];
    assert forall s :: s in init ==> s in srcs;
    if x in AllCaptures(init, files, p) {
      i := AllCapturesFrom(init, files, p, x);
      assert init[i] == srcs[i];
    } else {
      i := |srcs| - 1;
    }
  }

  /** Every header some source includes is reported. */
  lemma {:induction false} AllCapturesOf(srcs: seq<string>, files: map<string, seq<string>>, p: LinePattern, i: nat, x: string)
    requires forall s :: s in srcs ==> s in files
    requires i < |srcs| && x in Captures(files[srcs[i]], p)
    ensures x in AllCaptures(srcs, files, p)
    decreases |srcs|
  {
    var init := srcs[..|srcs| - 1];
    assert forall s :: s in init ==> s in srcs;
    var front := AllCaptures(init, files, p);
    var last := Captures(files[srcs[|srcs| - 1]], p);
    assert AllCaptures(srcs, files, p) == front + last;
    if i < |init| {
      assert init[i] == srcs[i];
      AllCapturesOf(init, files, p, i, x);
      assert x in front;
    } else {
      assert i == |srcs| - 1;
      assert files[srcs[i]] == files[srcs[|srcs| - 1]];
    }
  }
}
