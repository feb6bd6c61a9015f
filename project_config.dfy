/*
 * The configuration probes of lib/makeconf/project.rb and the `config.h`
 * text they end in: `check_decl` and `check_func` record, for each name
 * not probed before, whether a small test program builds, and
 * `write_config_h` turns the header, declaration and function results into
 * one `#define` or `#undef` line per macro, in sorted order.
 *
 * The compiler that builds the test programs is not part of this model: the
 * probes take its verdict on a program text as a parameter.
 */
module ProjectConfig {
  import opened Strings
  import Makefiles

  // ---------------------------------------------------------------------
  // check_decl / check_func
  // ---------------------------------------------------------------------

  /** Which probe is run: a declaration in a header (`check_decl`) or a library function (`check_func`). */
  datatype Check = Decl(header: string) | Func

  /** The program `check_decl` compiles: it must see `x` declared by the header. */
  function DeclProgram(header: string, x: string): string
  {
    "#define _GNU_SOURCE\n#include <" + header + ">\nint main() { " + x + "; }"
  }

  /** The program `check_func` links: it takes the address of `x`. */
  function FuncProgram(x: string): string
  {
    "void *" + x + "();\nint main() { void *p;\np = &" + x + "; }"
  }

  /** The test program for name `x`. */
  function Program(c: Check, x: string): string
  {
    match c
    case Decl(header) => DeclProgram(header, x)
    case Func => FuncProgram(x)
  }

  /**
   * The results after probing `names` in order, and the names actually
   * probed (each probe prints a "checking ..." line): a name already known
   * is skipped; `builds` is the compiler's verdict on a program.
   */
  function Probed(known: map<string, bool>, c: Check, names: seq<string>, builds: string -> bool): (map<string, bool>, seq<string>)
    decreases |names|
  {
    if names == [] then (known, [])
    else if names[0] in known then Probed(known, c, names[1..], builds)
    else
      var rest := Probed(known[names[0] := builds(Program(c, names[0]))], c, names[1..], builds);
      (rest.0, [names[0]] + rest.1)
  }

  /**
   * Probing keeps every earlier result, records every name given, and
   * stores for a new name the verdict on its own program; each name is
   * probed at most once, and exactly the names not known before are probed.
   */
  lemma {:induction false} ProbedSpec(known: map<string, bool>, c: Check, names: seq<string>, builds: string -> bool)
    ensures var (m, log) := Probed(known, c, names, builds);
            && (forall k :: k in m <==> k in known || k in names)
            && (forall k :: k in known ==> m[k] == known[k])
            && (forall k :: k in m && k !in known ==> m[k] == builds(Program(c, k)))
            && NoDuplicates(log)
            && (forall x :: x in log <==> x in names && x !in known)
    decreases |names|, 1
  {
    if names != [] {
      var n := names[0];
      assert forall k :: k in names <==> k == n || k in names[1..];
      if n in known {
        ProbedSpec(known, c, names[1..], builds);
      } else {
        ProbedNew(known, c, names, builds);
      }
    }
  }

  /** The step of `ProbedSpec` for a first name that is not known yet. */
  lemma ProbedNew(known: map<string, bool>, c: Check, names: seq<string>, builds: string -> bool)
    requires names != [] && names[0] !in known
    ensures var (m, log) := Probed(known, c, names, builds);
            && (forall k :: k in m <==> k in known || k in names)
            && (forall k :: k in known ==> m[k] == known[k])
            && (forall k :: k in m && k !in known ==> m[k] == builds(Program(c, k)))
            && NoDuplicates(log)
            && (forall x :: x in log <==> x in names && x !in known)
    decreases |names|, 0
  {
    var n := names[0];
    var known' := known[n := builds(Program(c, n))];
    ProbedSpec(known', c, names[1..], builds);
    var rest := Probed(known', c, names[1..], builds);
    assert forall k :: k in names <==> k == n || k in names[1..];
    NoDuplicatesCons(n, rest.1);
  }

  /** Probing the same names again probes nothing and changes nothing. */
  lemma ProbedTwice(known: map<string, bool>, c: Check, names: seq<string>, builds: string -> bool)
    ensures var (m, _) := Probed(known, c, names, builds);
            Probed(m, c, names, builds) == (m, [])
  {
    var m := Probed(known, c, names, builds).0;
    ProbedSpec(known, c, names, builds);
    AllKnown(m, c, names, builds);
  }

  /** Names that are all known are all skipped. */
  lemma {:induction false} AllKnown(m: map<string, bool>, c: Check, names: seq<string>, builds: string -> bool)
    requires forall i :: 0 <= i < |names| ==> names[i] in m
    ensures Probed(m, c, names, builds) == (m, [])
    decreases |names|
  {
    if names != [] {
      AllKnown(m, c, names[1..], builds);
    }
  }

  // ---------------------------------------------------------------------
  // write_config_h
  // ---------------------------------------------------------------------

  const Banner := "/* AUTOMATICALLY GENERATED -- DO NOT EDIT */\n"

  /** The key a result is stored under: `"<prefix><name>".upcase`. */
  function BufKey(prefix: string, name: string): string
  {
    Upcase(prefix + name)
  }

  /** The macro for a key: upcased, with `/`, `.` and `-` made `_`. */
  function Macro(key: string): string
  {
    Underscore(Upcase(key), {'/', '.', '-'})
  }

  /** The line for one key: `#define` when the value is true, `#undef` otherwise. */
  function ConfigLine(key: string, v: bool): string
  {
    if v then "#define " + Macro(key) + " 1\n" else "#undef  " + Macro(key) + "\n"
  }

  /** Some name of `ks` is stored under `key`. */
  predicate Produces(ks: seq<string>, prefix: string, key: string)
  {
    exists i :: 0 <= i < |ks| && BufKey(prefix, ks[i]) == key
  }

  /** No later name of `ks` is stored under the key of `ks[i]`. */
  predicate LastOfKey(ks: seq<string>, prefix: string, i: int)
    requires 0 <= i < |ks|
  {
    forall j :: i < j < |ks| ==> BufKey(prefix, ks[j]) != BufKey(prefix, ks[i])
  }

  /** `ks.each { |x| buf["<prefix>#{x}".upcase] = src[x] }` */
  function Stored(buf: map<string, bool>, src: map<string, bool>, ks: seq<string>, prefix: string): map<string, bool>
    requires forall i :: 0 <= i < |ks| ==> ks[i] in src
    decreases |ks|
  {
    if ks == [] then buf
    else Stored(buf[BufKey(prefix, ks[0]) := src[ks[0]]], src, ks[1..], prefix)
  }

  /** Storing adds exactly the keys of the names. */
  lemma {:induction false} StoredKeys(buf: map<string, bool>, src: map<string, bool>, ks: seq<string>, prefix: string, key: string)
    requires forall i :: 0 <= i < |ks| ==> ks[i] in src
    ensures key in Stored(buf, src, ks, prefix) <==> key in buf || Produces(ks, prefix, key)
    decreases |ks|
  {
    if ks != [] {
      var tail := ks[1..];
      StoredKeys(buf[BufKey(prefix, ks[0]) := src[ks[0]]], src, tail, prefix, key);
      if Produces(tail, prefix, key) {
        var i :| 0 <= i < |tail| && BufKey(prefix, tail[i]) == key;
        assert BufKey(prefix, ks[i + 1]) == key;
      }
      if Produces(ks, prefix, key) && key != BufKey(prefix, ks[0]) {
        var i :| 0 <= i < |ks| && BufKey(prefix, ks[i]) == key;
        assert BufKey(prefix, tail[i - 1]) == key;
      }
    }
  }

  /** A key no name is stored under keeps its value. */
  lemma {:induction false} StoredKeeps(buf: map<string, bool>, src: map<string, bool>, ks: seq<string>, prefix: string, key: string)
    requires forall i :: 0 <= i < |ks| ==> ks[i] in src
    requires key in buf && !Produces(ks, prefix, key)
    ensures key in Stored(buf, src, ks, prefix) && Stored(buf, src, ks, prefix)[key] == buf[key]
    decreases |ks|
  {
    if ks != [] {
      var tail := ks[1..];
      assert BufKey(prefix, ks[0]) != key;
      assert !Produces(tail, prefix, key) by {
        forall j | 0 <= j < |tail| ensures BufKey(prefix, tail[j]) != key {
          assert tail[j] == ks[j + 1];
        }
      }
      StoredKeeps(buf[BufKey(prefix, ks[0]) := src[ks[0]]], src, tail, prefix, key);
    }
  }

  /** Where several names share a key, the last of them wins. */
  lemma {:induction false} StoredLast(buf: map<string, bool>, src: map<string, bool>, ks: seq<string>, prefix: string, i: nat)
    requires forall j :: 0 <= j < |ks| ==> ks[j] in src
    requires i < |ks| && LastOfKey(ks, prefix, i)
    ensures BufKey(prefix, ks[i]) in Stored(buf, src, ks, prefix)
    ensures Stored(buf, src, ks, prefix)[BufKey(prefix, ks[i])] == src[ks[i]]
    decreases |ks|
  {
    var tail := ks[1..];
    var k0 := BufKey(prefix, ks[0]);
    var buf' := buf[k0 := src[ks[0]]];
    if i == 0 {
      assert !Produces(tail, prefix, k0) by {
        forall j | 0 <= j < |tail| ensures BufKey(prefix, tail[j]) != k0 {
          assert tail[j] == ks[j + 1];
        }
      }
      StoredKeeps(buf', src, tail, prefix, k0);
    } else {
      assert tail[i - 1] == ks[i];
      forall j | i - 1 < j < |tail| ensures BufKey(prefix, tail[j]) != BufKey(prefix, tail[i - 1]) {
        assert tail[j] == ks[j + 1];
      }
      StoredLast(buf', src, tail, prefix, i - 1);
    }
  }

  /** The buffer `write_config_h` fills: headers, then declarations, then functions, each in sorted order. */
  ghost function ConfigBuf(header: map<string, bool>, decls: map<string, bool>, funcs: map<string, bool>): map<string, bool>
  {
    var b1 := Stored(map[], header, SortedElements(header.Keys), "HAVE_");
    var b2 := Stored(b1, decls, SortedElements(decls.Keys), "HAVE_DECL_");
    Stored(b2, funcs, SortedElements(funcs.Keys), "HAVE_")
  }

  /** The lines for the keys `ks`, in that order. */
  function ConfigLines(buf: map<string, bool>, ks: seq<string>): string
    requires forall i :: 0 <= i < |ks| ==> ks[i] in buf
    decreases |ks|
  {
    if ks == [] then ""
    else ConfigLines(buf, ks[..|ks| - 1]) + ConfigLine(ks[|ks| - 1], buf[ks[|ks| - 1]])
  }

  /** The text `write_config_h` writes: the banner, then one line per key in sorted order. */
  ghost function ConfigText(header: map<string, bool>, decls: map<string, bool>, funcs: map<string, bool>): string
  {
    var buf := ConfigBuf(header, decls, funcs);
    Banner + ConfigLines(buf, SortedElements(buf.Keys))
  }

  /** The line for a key defines its macro exactly when the value is true; the macro has no lower-case letter, `/`, `.` or `-`. */
  lemma ConfigLineShape(key: string, v: bool)
    ensures StartsWith(ConfigLine(key, v), "#define ") <==> v
    ensures v ==> ConfigLine(key, v) == "#define " + Macro(key) + " 1\n"
    ensures !v ==> ConfigLine(key, v) == "#undef  " + Macro(key) + "\n"
    ensures var m := Macro(key);
            |m| == |key| && forall i :: 0 <= i < |m| ==> m[i] !in {'/', '.', '-'} && !('a' <= m[i] <= 'z')
  {
    if !v {
      assert ConfigLine(key, v)[1] == 'u';
    }
  }

  /** Every key listed has its line in the text. */
  lemma {:induction false} ConfigLinesContain(buf: map<string, bool>, ks: seq<string>, i: nat)
    requires forall j :: 0 <= j < |ks| ==> ks[j] in buf
    requires i < |ks|
    ensures Contains(ConfigLines(buf, ks), ConfigLine(ks[i], buf[ks[i]]))
    decreases |ks|
  {
    var init := ks[..|ks| - 1];
    var last := ConfigLine(ks[|ks| - 1], buf[ks[|ks| - 1]]);
    ConfigLinesLast(buf, ks);
    if i == |ks| - 1 {
      ContainsLast(ConfigLines(buf, init), last);
    } else {
      assert init[i] == ks[i];
      ConfigLinesContain(buf, init, i);
      ContainsPrefix(ConfigLines(buf, init), last, ConfigLine(ks[i], buf[ks[i]]));
    }
  }

  lemma ConfigLinesLast(buf: map<string, bool>, ks: seq<string>)
    requires ks != [] && forall j :: 0 <= j < |ks| ==> ks[j] in buf
    ensures ConfigLines(buf, ks) == ConfigLines(buf, ks[..|ks| - 1]) + ConfigLine(ks[|ks| - 1], buf[ks[|ks| - 1]])
  {
  }

  lemma ContainsLast(a: string, b: string)
    ensures Contains(a + b, b)
  {
    ContainsInfix(a, b, "");
    assert a + b + "" == a + b;
  }

  /** The text reports every key of the buffer with its value. */
  lemma ConfigTextReports(header: map<string, bool>, decls: map<string, bool>, funcs: map<string, bool>, key: string)
    requires key in ConfigBuf(header, decls, funcs)
    ensures var buf := ConfigBuf(header, decls, funcs);
            Contains(ConfigText(header, decls, funcs), ConfigLine(key, buf[key]))
  {
    var buf := ConfigBuf(header, decls, funcs);
    var ks := SortedElements(buf.Keys);
    var i := SortedIndex(buf.Keys, key);
    ConfigLinesContain(buf, ks, i);
    ContainsSuffix(Banner, ConfigLines(buf, ks), ConfigLine(key, buf[key]));
  }

  /** A name that is the only one of its map with its key is the last of that key in sorted order. */
  lemma UniqueIsLast(src: map<string, bool>, prefix: string, x: string) returns (i: nat)
    requires x in src && OwnKey(src, prefix, x)
    ensures var ks := SortedElements(src.Keys);
            i < |ks| && ks[i] == x && LastOfKey(ks, prefix, i)
  {
    var ks := SortedElements(src.Keys);
    i :| 0 <= i < |ks| && ks[i] == x;
    forall j | i < j < |ks| ensures BufKey(prefix, ks[j]) != BufKey(prefix, ks[i]) {
      assert ks[j] in src && ks[j] != x;
    }
  }

  /** Headers produce `HAVE_` keys, declarations `HAVE_DECL_` keys, functions `HAVE_` keys. */
  predicate FromResults(header: map<string, bool>, decls: map<string, bool>, funcs: map<string, bool>, key: string)
  {
    NamedBy(header, "HAVE_", key) || NamedBy(decls, "HAVE_DECL_", key) || NamedBy(funcs, "HAVE_", key)
  }

  /** Some name of `src` is stored under `key`. */
  predicate NamedBy(src: map<string, bool>, prefix: string, key: string)
  {
    exists k :: k in src && BufKey(prefix, k) == key
  }

  /** No name of `src` but `x` has the key of `x`. */
  predicate OwnKey(src: map<string, bool>, prefix: string, x: string)
  {
    forall y :: y in src && y != x ==> BufKey(prefix, y) != BufKey(prefix, x)
  }

  /** No name of `src` has the key `key`. */
  predicate KeyFree(src: map<string, bool>, prefix: string, key: string)
  {
    forall y :: y in src ==> BufKey(prefix, y) != key
  }

  /** The keys of the buffer are exactly `HAVE_<header>`, `HAVE_DECL_<decl>` and `HAVE_<func>`, upcased. */
  lemma ConfigBufKeys(header: map<string, bool>, decls: map<string, bool>, funcs: map<string, bool>, key: string)
    ensures key in ConfigBuf(header, decls, funcs) <==> FromResults(header, decls, funcs, key)
  {
    var b1 := Stored(map[], header, SortedElements(header.Keys), "HAVE_");
    var b2 := Stored(b1, decls, SortedElements(decls.Keys), "HAVE_DECL_");
    StoredMapKeys(map[], header, "HAVE_", key);
    StoredMapKeys(b1, decls, "HAVE_DECL_", key);
    StoredMapKeys(b2, funcs, "HAVE_", key);
  }

  /** Storing a map's results in sorted order adds exactly the keys of its names. */
  lemma StoredMapKeys(buf: map<string, bool>, src: map<string, bool>, prefix: string, key: string)
    ensures key in Stored(buf, src, SortedElements(src.Keys), prefix) <==>
              key in buf || NamedBy(src, prefix, key)
  {
    var ks := SortedElements(src.Keys);
    StoredKeys(buf, src, ks, prefix, key);
    ProducesInMap(src, ks, prefix, key);
  }

  /** Storing a map's results in sorted order: a name with a key of its own leaves its result under that key. */
  lemma StoredOwn(buf: map<string, bool>, src: map<string, bool>, prefix: string, x: string)
    requires x in src && OwnKey(src, prefix, x)
    ensures var r := Stored(buf, src, SortedElements(src.Keys), prefix);
            BufKey(prefix, x) in r && r[BufKey(prefix, x)] == src[x]
  {
    var i := UniqueIsLast(src, prefix, x);
    StoredLast(buf, src, SortedElements(src.Keys), prefix, i);
  }

  /** Storing a map's results in sorted order keeps a key none of its names has. */
  lemma StoredFree(buf: map<string, bool>, src: map<string, bool>, prefix: string, key: string)
    requires key in buf && KeyFree(src, prefix, key)
    ensures var r := Stored(buf, src, SortedElements(src.Keys), prefix);
            key in r && r[key] == buf[key]
  {
    var ks := SortedElements(src.Keys);
    ProducesInMap(src, ks, prefix, key);
    StoredKeeps(buf, src, ks, prefix, key);
  }

  /** A function's result is never overwritten, unless another function shares its key. */
  lemma FuncResultKept(header: map<string, bool>, decls: map<string, bool>, funcs: map<string, bool>, f: string)
    requires f in funcs && OwnKey(funcs, "HAVE_", f)
    ensures BufKey("HAVE_", f) in ConfigBuf(header, decls, funcs)
    ensures ConfigBuf(header, decls, funcs)[BufKey("HAVE_", f)] == funcs[f]
  {
    var b1 := Stored(map[], header, SortedElements(header.Keys), "HAVE_");
    var b2 := Stored(b1, decls, SortedElements(decls.Keys), "HAVE_DECL_");
    StoredOwn(b2, funcs, "HAVE_", f);
  }

  /** A declaration's result survives unless another declaration or a function writes its key. */
  lemma DeclResultKept(header: map<string, bool>, decls: map<string, bool>, funcs: map<string, bool>, d: string)
    requires d in decls && OwnKey(decls, "HAVE_DECL_", d) && KeyFree(funcs, "HAVE_", BufKey("HAVE_DECL_", d))
    ensures BufKey("HAVE_DECL_", d) in ConfigBuf(header, decls, funcs)
    ensures ConfigBuf(header, decls, funcs)[BufKey("HAVE_DECL_", d)] == decls[d]
  {
    var b1 := Stored(map[], header, SortedElements(header.Keys), "HAVE_");
    var b2 := Stored(b1, decls, SortedElements(decls.Keys), "HAVE_DECL_");
    StoredOwn(b1, decls, "HAVE_DECL_", d);
    StoredFree(b2, funcs, "HAVE_", BufKey("HAVE_DECL_", d));
  }

  /** A header's result survives unless another header, a declaration or a function writes its key. */
  lemma HeaderResultKept(header: map<string, bool>, decls: map<string, bool>, funcs: map<string, bool>, k: string)
    requires k in header && OwnKey(header, "HAVE_", k)
    requires KeyFree(decls, "HAVE_DECL_", BufKey("HAVE_", k)) && KeyFree(funcs, "HAVE_", BufKey("HAVE_", k))
    ensures BufKey("HAVE_", k) in ConfigBuf(header, decls, funcs)
    ensures ConfigBuf(header, decls, funcs)[BufKey("HAVE_", k)] == header[k]
  {
    var b1 := Stored(map[], header, SortedElements(header.Keys), "HAVE_");
    StoredOwn(map[], header, "HAVE_", k);
    LaterStagesKeep(b1, decls, funcs, BufKey("HAVE_", k));
  }

  /** A key no declaration and no function writes keeps its value through those two stages. */
  lemma LaterStagesKeep(b1: map<string, bool>, decls: map<string, bool>, funcs: map<string, bool>, key: string)
    requires key in b1 && KeyFree(decls, "HAVE_DECL_", key) && KeyFree(funcs, "HAVE_", key)
    ensures var r := Stored(Stored(b1, decls, SortedElements(decls.Keys), "HAVE_DECL_"), funcs, SortedElements(funcs.Keys), "HAVE_");
            key in r && r[key] == b1[key]
  {
    var b2 := Stored(b1, decls, SortedElements(decls.Keys), "HAVE_DECL_");
    StoredFree(b1, decls, "HAVE_DECL_", key);
    StoredFree(b2, funcs, "HAVE_", key);
  }

  /** Over the sorted names of a map, `Produces` is "some name of the map has that key". */
  lemma ProducesInMap(src: map<string, bool>, ks: seq<string>, prefix: string, key: string)
    requires ks == SortedElements(src.Keys)
    ensures Produces(ks, prefix, key) <==> NamedBy(src, prefix, key)
  {
    if exists k :: k in src && BufKey(prefix, k) == key {
      var k :| k in src && BufKey(prefix, k) == key;
      var i :| 0 <= i < |ks| && ks[i] == k;
    }
  }

  /**
   * A function found (or not) whose key no other function shares is
   * reported by its `HAVE_` line: `#define HAVE_<FUNC> 1` when it links.
   */
  lemma FuncReported(header: map<string, bool>, decls: map<string, bool>, funcs: map<string, bool>, f: string)
    requires f in funcs && OwnKey(funcs, "HAVE_", f)
    ensures Contains(ConfigText(header, decls, funcs), ConfigLine(BufKey("HAVE_", f), funcs[f]))
  {
    FuncResultKept(header, decls, funcs, f);
    ConfigTextReports(header, decls, funcs, BufKey("HAVE_", f));
  }

  /** A header with a key of its own is reported by its `HAVE_` line. */
  lemma HeaderReported(header: map<string, bool>, decls: map<string, bool>, funcs: map<string, bool>, k: string)
    requires k in header && OwnKey(header, "HAVE_", k)
    requires KeyFree(decls, "HAVE_DECL_", BufKey("HAVE_", k)) && KeyFree(funcs, "HAVE_", BufKey("HAVE_", k))
    ensures Contains(ConfigText(header, decls, funcs), ConfigLine(BufKey("HAVE_", k), header[k]))
  {
    HeaderResultKept(header, decls, funcs, k);
    ConfigTextReports(header, decls, funcs, BufKey("HAVE_", k));
  }

  /** One name stored: the rest of the names are stored into the updated buffer. */
  lemma StoredStep(buf: map<string, bool>, src: map<string, bool>, ks: seq<string>, i: nat, prefix: string)
    requires forall j :: 0 <= j < |ks| ==> ks[j] in src
    requires i < |ks|
    ensures Stored(buf, src, ks[i..], prefix) == Stored(buf[BufKey(prefix, ks[i]) := src[ks[i]]], src, ks[i + 1..], prefix)
  {
    assert ks[i..][1..] == ks[i + 1..];
  }

  /** Every name of the sorted keys is a key of the map. */
  lemma SortedKeysIn(src: map<string, bool>)
    ensures forall j :: 0 <= j < |SortedElements(src.Keys)| ==> SortedElements(src.Keys)[j] in src
  {
  }

  /** `buf` after storing the results of `src` for the names `ks`, in order. */
  method Store(buf: map<string, bool>, src: map<string, bool>, ks: seq<string>, prefix: string) returns (r: map<string, bool>)
    requires forall j :: 0 <= j < |ks| ==> ks[j] in src
    ensures r == Stored(buf, src, ks, prefix)
  {
    r := buf;
    var i := 0;
    assert ks[0..] == ks;
    while i < |ks|
      invariant i <= |ks|
      invariant Stored(r, src, ks[i..], prefix) == Stored(buf, src, ks, prefix)
    {
      StoredStep(r, src, ks, i, prefix);
      r := r[BufKey(prefix, ks[i]) := src[ks[i]]];
      i := i + 1;
    }
  }

  /** The lines for the keys `ks`, appended in order. */
  method Lines(buf: map<string, bool>, ks: seq<string>) returns (text: string)
    requires forall j :: 0 <= j < |ks| ==> ks[j] in buf
    ensures text == ConfigLines(buf, ks)
  {
    text := "";
    var i := 0;
    while i < |ks|
      invariant i <= |ks|
      invariant text == ConfigLines(buf, ks[..i])
    {
      ConfigLinesSnoc(buf, ks, i);
      text := text + ConfigLine(ks[i], buf[ks[i]]);
      i := i + 1;
    }
    assert ks[..|ks|] == ks;
  }

  /** One more key adds its line at the end. */
  lemma ConfigLinesSnoc(buf: map<string, bool>, ks: seq<string>, i: nat)
    requires i < |ks| && forall j :: 0 <= j < |ks| ==> ks[j] in buf
    ensures ConfigLines(buf, ks[..i + 1]) == ConfigLines(buf, ks[..i]) + ConfigLine(ks[i], buf[ks[i]])
  {
    assert ks[..i + 1][..i] == ks[..i];
    assert ks[..i + 1][i] == ks[i];
  }

  /** The macro buffer `write_config_h` fills from the header, declaration and function results, in that order. */
  method CollectResults(header: map<string, bool>, decls: map<string, bool>, funcs: map<string, bool>) returns (buf: map<string, bool>)
    ensures buf == ConfigBuf(header, decls, funcs)
  {
    var hs := Makefiles.SortedNames(header.Keys);
    var ds := Makefiles.SortedNames(decls.Keys);
    var fs := Makefiles.SortedNames(funcs.Keys);
    SortedKeysIn(header);
    SortedKeysIn(decls);
    SortedKeysIn(funcs);
    buf := Store(map[], header, hs, "HAVE_");
    buf := Store(buf, decls, ds, "HAVE_DECL_");
    buf := Store(buf, funcs, fs, "HAVE_");
  }

  /** The text of `config.h` for the given results. */
  method WriteConfigH(header: map<string, bool>, decls: map<string, bool>, funcs: map<string, bool>) returns (text: string)
    ensures text == ConfigText(header, decls, funcs)
  {
    var buf := CollectResults(header, decls, funcs);
    var ks := Makefiles.SortedNames(buf.Keys);
    var lines := Lines(buf, ks);
    text := Banner + lines;
  }
}
