// The Archiver of trunk/lib/makeconf/archiver.rb: the `ar` command that
// bundles object files into a static library, and the Makefile target that
// runs it.
//
// As written, `command` reads `flags`, a name the class never defines (the
// value lives in `@flags`, which has no reader), so `command` and `to_make`
// raise NameError whatever the state. `CommandAsWritten` and
// `ToMakeAsWritten` record that; `CommandText` and `ArchiveTarget` read
// `flags` as `@flags`, the evident intent, and the class uses them.

module Archivers {
  import opened Strings
  import opened RubyValues
  import opened Targets
  import Linkers

  /** `@flags` of a new archiver (GNU `ar` flags). */
  const DefaultFlags := "cru"

  /** The exception `command` raises as written. */
  const NameError := "undefined local variable or method `flags' for Archiver"

  /** An optional string as a Ruby value: nil when absent. */
  function Nilable(o: Option<string>): (v: RValue)
    ensures o.None? <==> v == Nil
    ensures o.Some? ==> v == Str(o.value)
  {
    if o.Some? then Str(o.value) else Nil
  }

  /** How `join` renders an optional string: nil renders empty. */
  function OptText(o: Option<string>): string
  {
    if o.Some? then o.value else ""
  }

  // ---------------------------------------------------------------------
  // The command and the target
  // ---------------------------------------------------------------------

  /** `[@path, @flags, @output, @objects].flatten.join(' ')` */
  function CommandText(path: Option<string>, flags: string, output: Option<string>, objects: seq<string>): string
  {
    Spaced(Texts([Nilable(path), Str(flags), Nilable(output), List(Strs(objects))]))
  }

  /** `Target.new(@output, @objects, command)` */
  function ArchiveTarget(output: Option<string>, objects: seq<string>, cmd: string): (r: Result<TargetState>)
    ensures r.Ok? <==> output.Some?
    ensures r.Err? ==> r.error == "Bad objs"
    ensures r.Ok? ==> r.value.name == output.value && r.value.deps == Strs(objects) && r.value.rules == [Str(cmd)]
    ensures r.Ok? ==> r.value.dirs == [] && r.value.copies == []
  {
    New(Nilable(output), List(Strs(objects)), Str(cmd))
  }

  /** `command` as written: the bare `flags` raises NameError. */
  function CommandAsWritten(path: Option<string>, flags: string, output: Option<string>, objects: seq<string>): (r: Result<string>)
  {
    Err(NameError)
  }

  /** `to_make` as written: it calls `command` before building the target. */
  function ToMakeAsWritten(path: Option<string>, flags: string, output: Option<string>, objects: seq<string>): (r: Result<TargetState>)
  {
    match CommandAsWritten(path, flags, output, objects)
    case Err(e) => Err(e)
    case Ok(cmd) => ArchiveTarget(output, objects, cmd)
  }

  /** As written, `command` and `to_make` raise even for a fully configured archiver whose corrected command and target exist. */
  lemma AsWrittenRaises(path: string, output: string, objects: seq<string>)
    ensures CommandAsWritten(Some(path), DefaultFlags, Some(output), objects) == Err(NameError)
    ensures ToMakeAsWritten(Some(path), DefaultFlags, Some(output), objects) == Err(NameError)
    ensures ArchiveTarget(Some(output), objects, CommandText(Some(path), DefaultFlags, Some(output), objects)).Ok?
  {
  }

  /** A value that is not a list contributes exactly its rendering. */
  lemma TextsOfLeaf(v: RValue)
    requires !v.List?
    ensures Texts([v]) == [Render(v, " ")]
  {
    assert Flatten([v]) == [v] + Flatten([]);
  }

  /** A list of strings contributes those strings. */
  lemma TextsOfStrList(xs: seq<string>)
    ensures Texts([List(Strs(xs))]) == xs
  {
    assert Flatten([List(Strs(xs))]) == Flatten(Strs(xs)) + Flatten([]);
    TextsOfStrs(xs);
  }

  /** The words of the command: path, flags and output (nil rendering empty), then each object. */
  lemma CommandWords(path: Option<string>, flags: string, output: Option<string>, objects: seq<string>)
    ensures CommandText(path, flags, output, objects) == Spaced([OptText(path), flags, OptText(output)] + objects)
  {
    var a, b, c, d := Nilable(path), Str(flags), Nilable(output), List(Strs(objects));
    assert [a, b, c, d] == [a] + [b] + [c] + [d];
    Linkers.TextsAppend([a] + [b] + [c], [d]);
    Linkers.TextsAppend([a] + [b], [c]);
    Linkers.TextsAppend([a], [b]);
    TextsOfLeaf(a);
    TextsOfLeaf(b);
    TextsOfLeaf(c);
    TextsOfStrList(objects);
    assert Render(a, " ") == OptText(path) && Render(c, " ") == OptText(output);
    assert Texts([a, b, c, d]) == [OptText(path), flags, OptText(output)] + objects;
  }

  /** The command is the path, a space, the flags, a space, the output, then a space before each object. */
  lemma CommandLayout(path: Option<string>, flags: string, output: Option<string>, objects: seq<string>)
    ensures CommandText(path, flags, output, objects)
         == OptText(path) + " " + flags + " " + OptText(output) + (if objects == [] then "" else " " + Spaced(objects))
  {
    CommandWords(path, flags, output, objects);
    var head := [OptText(path), flags, OptText(output)];
    SpacedTriple(OptText(path), flags, OptText(output));
    if objects == [] {
      assert head + objects == head;
    } else {
      JoinConcat(head, objects, " ");
    }
  }

  /** A new archiver without `LD` that is given no output or objects renders as ` cru `. */
  lemma DefaultCommand()
    ensures CommandText(None, DefaultFlags, None, []) == " cru "
  {
    CommandLayout(None, DefaultFlags, None, []);
  }

  // ---------------------------------------------------------------------
  // The class
  // ---------------------------------------------------------------------

  class Archiver {
    /** `@flags`: set by the constructor; the class has no reader for it. */
    var flags: string
    /** The object files to archive. */
    var objects: seq<string>
    /** The archive to create; nil until set. */
    var output: Option<string>
    /** The archiver executable; nil unless `LD` was set. */
    var path: Option<string>

    /** `Archiver.new`; `ld` is the value of the `LD` environment variable, if set. */
    constructor (ld: Option<string>)
      ensures flags == DefaultFlags && objects == [] && output == None && path == ld
    {
      flags := DefaultFlags;
      objects := [];
      output := None;
      path := None;
      if ld.Some? {
        path := ld;
      }
    }

    /** `path=`: only stores the executable. */
    method SetPath(p: string)
      modifies this
      ensures path == Some(p)
      ensures flags == old(flags) && objects == old(objects) && output == old(output)
    {
      path := Some(p);
    }

    /** `command`, with `flags` read as `@flags`. */
    method Command() returns (cmd: string)
      ensures cmd == CommandText(path, flags, output, objects)
    {
      cmd := Spaced(Texts([Nilable(path), Str(flags), Nilable(output), List(Strs(objects))]));
    }

    /** `to_make`: a target named after the output, depending on the objects, whose one rule is the command. */
    method ToMake() returns (r: Result<TargetState>)
      ensures r == ArchiveTarget(output, objects, CommandText(path, flags, output, objects))
    {
      var cmd := Command();
      r := New(Nilable(output), List(Strs(objects)), Str(cmd));
    }
  }
}
