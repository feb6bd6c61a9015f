/**
 * Header dependencies read from text.  The preprocessor's line markers
 * (`# 12 "foo.h" 1`) name the local headers a source pulls in, and
 * `#include <...>` lines name the system headers.  Each line is matched on
 * its own: `^` anchors at its start and `.` stops at a newline, which is
 * exact for lines that hold no newline except possibly a final one.
 */
module Headers {
  import opened Strings

  /** Length of the leading run of white space, what `\s*` consumes. */
  function SpaceRun(s: string): (n: nat)
    ensures n <= |s|
    ensures forall i :: 0 <= i < n ==> IsSpace(s[i])
    ensures n < |s| ==> !IsSpace(s[n])
  {
    if s == [] || !IsSpace(s[0]) then 0 else 1 + SpaceRun(s[1..])
  }

  predicate AllSpace(s: string)
  {
    forall i :: 0 <= i < |s| ==> IsSpace(s[i])
  }

  predicate IsDigit(c: char)
  {
    '0' <= c <= '9'
  }

  /** Length of the leading run of decimal digits, what `\d+` consumes. */
  function DigitRun(s: string): (n: nat)
    ensures n <= |s|
    ensures forall i :: 0 <= i < n ==> IsDigit(s[i])
    ensures n < |s| ==> !IsDigit(s[n])
  {
    if s == [] || !IsDigit(s[0]) then 0 else 1 + DigitRun(s[1..])
  }

  predicate AllDigits(s: string)
  {
    forall i :: 0 <= i < |s| ==> IsDigit(s[i])
  }

  /** A leading run of white space stops where the first other character starts. */
  lemma {:induction false} SpaceRunOf(pre: string, x: string)
    requires AllSpace(pre)
    requires x == [] || !IsSpace(x[0])
    ensures SpaceRun(pre + x) == |pre|
    decreases |pre|
  {
    if pre != [] {
      assert (pre + x)[1..] == pre[1..] + x;
      SpaceRunOf(pre[1..], x);
    } else {
      assert pre + x == x;
    }
  }

  lemma {:induction false} DigitRunOf(ds: string, x: string)
    requires AllDigits(ds)
    requires x == [] || !IsDigit(x[0])
    ensures DigitRun(ds + x) == |ds|
    decreases |ds|
  {
    if ds != [] {
      assert (ds + x)[1..] == ds[1..] + x;
      DigitRunOf(ds[1..], x);
    } else {
      assert ds + x == x;
    }
  }

  // ---------------------------------------------------------------------
  // #include <name>
  // ---------------------------------------------------------------------

  /** Where the lazy `(.*?)>` stops: the first '>' of `w`, provided no newline comes first. */
  function NameEnd(w: string): (r: Option<nat>)
    ensures r.Some? ==> r.value < |w| && w[r.value] == '>'
    ensures r.Some? ==> forall i :: 0 <= i < r.value ==> w[i] != '>' && w[i] != '\n'
    decreases |w|
  {
    if w == [] || w[0] == '\n' then None
    else if w[0] == '>' then Some(0)
    else match NameEnd(w[1..])
      case None => None
      case Some(e) => Some(e + 1)
  }

  lemma {:induction false} NameEndOf(name: string, rest: string)
    requires '>' !in name && '\n' !in name
    ensures NameEnd(name + ">" + rest) == Some(|name|)
    decreases |name|
  {
    if name != [] {
      assert (name + ">" + rest)[1..] == name[1..] + ">" + rest;
      assert name[0] in name;
      NameEndOf(name[1..], rest);
    } else {
      assert name + ">" + rest == ['>'] + rest;
    }
  }

  /** What is left after `\s*`. */
  function AfterSpaces(s: string): (r: string)
    ensures r == s[SpaceRun(s)..]
  {
    s[SpaceRun(s)..]
  }

  /** What `#\s*` leaves, if the text starts with `#`. */
  function AfterHash(t: string): (r: Option<string>)
  {
    if t == [] || t[0] != '#' then None else Some(AfterSpaces(t[1..]))
  }

  /** What `include\s+<` leaves, if the text starts with it. */
  function AfterInclude(u: string): (r: Option<string>)
  {
    if !StartsWith(u, "include") then None
    else
      var v := u[7..];
      var k := SpaceRun(v);
      if k == 0 || k == |v| || v[k] != '<' then None
      else Some(v[k + 1..])
  }

  /** What `(.*?)>` captures. */
  function NameBefore(w: string): (r: Option<string>)
    ensures r.Some? ==> '>' !in r.value && '\n' !in r.value
  {
    match NameEnd(w)
    case None => None
    case Some(e) =>
      assert forall i :: 0 <= i < e ==> w[..e][i] == w[i];
      Some(w[..e])
  }

  /** The line with the leading `\s*` consumed when it is allowed. */
  function Lead(line: string, indented: bool): string
  {
    if indented then AfterSpaces(line) else line
  }

  /**
   * `$1` of `line =~ /^\s*#\s*include\s+<(.*?)>/` when `indented`, of
   * `/^#\s*include\s+<(.*?)>/` otherwise.
   */
  function IncludedName(line: string, indented: bool): (r: Option<string>)
    ensures r.Some? ==> '>' !in r.value && '\n' !in r.value
  {
    match AfterHash(Lead(line, indented))
    case None => None
    case Some(u) =>
      match AfterInclude(u)
      case None => None
      case Some(w) => NameBefore(w)
  }

  /** The lines an include directive can be written as. */
  predicate IsDirective(line: string, indented: bool, pre: string, gap: string, sep: string, name: string, rest: string)
  {
    && AllSpace(pre) && (indented || pre == [])
    && AllSpace(gap) && AllSpace(sep) && sep != []
    && '>' !in name && '\n' !in name
    && line == pre + ("#" + (gap + ("include" + (sep + ("<" + (name + (">" + rest)))))))
  }

  lemma AfterSpacesOf(pre: string, x: string)
    requires AllSpace(pre)
    requires x == [] || !IsSpace(x[0])
    ensures AfterSpaces(pre + x) == x
  {
    SpaceRunOf(pre, x);
  }

  lemma AfterHashOf(gap: string, x: string)
    requires AllSpace(gap) && x != [] && !IsSpace(x[0])
    ensures AfterHash("#" + (gap + x)) == Some(x)
  {
    AfterSpacesOf(gap, x);
  }

  lemma AfterIncludeOf(sep: string, w: string)
    requires AllSpace(sep) && sep != []
    ensures AfterInclude("include" + (sep + ("<" + w))) == Some(w)
  {
    var v := sep + ("<" + w);
    assert ("include" + v)[..7] == "include";
    assert ("include" + v)[7..] == v;
    SpaceRunOf(sep, "<" + w);
    assert v[|sep|] == '<' && v[|sep| + 1..] == w;
  }

  lemma NameBeforeOf(name: string, rest: string)
    requires '>' !in name && '\n' !in name
    ensures NameBefore(name + (">" + rest)) == Some(name)
  {
    assert name + (">" + rest) == name + ">" + rest;
    NameEndOf(name, rest);
  }

  /** Every include directive yields the name between its angle brackets. */
  lemma IncludedNameOfDirective(line: string, indented: bool, pre: string, gap: string, sep: string, name: string, rest: string)
    requires IsDirective(line, indented, pre, gap, sep, name, rest)
    ensures IncludedName(line, indented) == Some(name)
  {
    var w := name + (">" + rest);
    var u := "include" + (sep + ("<" + w));
    var t := "#" + (gap + u);
    LeadOf(line, indented, pre, t);
    AfterHashOf(gap, u);
    AfterIncludeOf(sep, w);
    NameBeforeOf(name, rest);
  }

  /** The allowed leading spaces are consumed up to the `#`. */
  lemma LeadOf(line: string, indented: bool, pre: string, t: string)
    requires AllSpace(pre) && (indented || pre == [])
    requires t != [] && t[0] == '#' && line == pre + t
    ensures Lead(line, indented) == t
  {
    if indented {
      AfterSpacesOf(pre, t);
    } else {
      assert line == t;
    }
  }

  lemma LeadParts(line: string, indented: bool) returns (pre: string)
    ensures AllSpace(pre) && (indented || pre == [])
    ensures line == pre + Lead(line, indented)
  {
    pre := if indented then line[..SpaceRun(line)] else [];
  }

  lemma AfterHashParts(t: string) returns (gap: string)
    requires AfterHash(t).Some?
    ensures AllSpace(gap) && t == "#" + (gap + AfterHash(t).value)
  {
    gap := t[1..][..SpaceRun(t[1..])];
  }

  lemma AfterIncludeParts(u: string) returns (sep: string)
    requires AfterInclude(u).Some?
    ensures AllSpace(sep) && sep != [] && u == "include" + (sep + ("<" + AfterInclude(u).value))
  {
    var v := u[7..];
    sep := v[..SpaceRun(v)];
    assert v == sep + ("<" + AfterInclude(u).value);
    assert u == u[..7] + v;
  }

  lemma NameBeforeParts(w: string) returns (rest: string)
    requires NameBefore(w).Some?
    ensures w == NameBefore(w).value + (">" + rest)
  {
    var e := NameEnd(w).value;
    rest := w[e + 1..];
    assert w == w[..e] + ([w[e]] + rest);
  }

  /** A name is found only in a line written as an include directive. */
  lemma IncludedNameIsDirective(line: string, indented: bool)
    returns (pre: string, gap: string, sep: string, rest: string)
    requires IncludedName(line, indented).Some?
    ensures IsDirective(line, indented, pre, gap, sep, IncludedName(line, indented).value, rest)
  {
    pre := LeadParts(line, indented);
    var t := Lead(line, indented);
    gap := AfterHashParts(t);
    var u := AfterHash(t).value;
    sep := AfterIncludeParts(u);
    var w := AfterInclude(u).value;
    rest := NameBeforeParts(w);
  }

  // ---------------------------------------------------------------------
  // # <digits> "<local header>"
  // ---------------------------------------------------------------------

  /** `.h"` starts at `j`. */
  predicate DotHAt(v: string, j: nat)
  {
    j + 3 <= |v| && v[j] == '.' && v[j + 1] == 'h' && v[j + 2] == '"'
  }

  /** The last `j` in 1..k where `.h"` starts. */
  function LastDotH(v: string, k: nat): (r: Option<nat>)
    ensures r.Some? ==> 1 <= r.value <= k && DotHAt(v, r.value)
    ensures r.Some? ==> forall j :: r.value < j <= k ==> !DotHAt(v, j)
    ensures r.None? ==> forall j :: 1 <= j <= k ==> !DotHAt(v, j)
  {
    if k == 0 then None
    else if DotHAt(v, k) then Some(k)
    else LastDotH(v, k - 1)
  }

  /** How far the greedy `.*` after the first character can reach: up to the first newline. */
  function Reach(v: string): (k: nat)
    requires v != []
    ensures 1 <= k <= |v|
    ensures forall j :: 1 <= j < k ==> v[j] != '\n'
    ensures k < |v| ==> v[k] == '\n'
  {
    match IndexOf(v[1..], '\n')
    case None => |v|
    case Some(i) => 1 + i
  }

  /** What `# \d+ "` leaves, if the line starts with it. */
  function MarkerBody(line: string): (r: Option<string>)
  {
    if !StartsWith(line, "# ") then None
    else
      var t := line[2..];
      var n := DigitRun(t);
      if n == 0 || !StartsWith(t[n..], " \"") then None
      else Some(t[n + 2..])
  }

  /** What `([^\/<].*\.h)"` captures. */
  function MarkedPath(v: string): (r: Option<string>)
    ensures r.Some? ==> |r.value| >= 3 && r.value[0] != '/' && r.value[0] != '<'
    ensures r.Some? ==> EndsWith(r.value, ".h")
  {
    if v == [] || v[0] == '/' || v[0] == '<' then None
    else match LastDotH(v, Reach(v))
      case None => None
      case Some(e) =>
        assert v[..e + 2][e..] == ".h";
        Some(v[..e + 2])
  }

  /**
   * `$1` of `line =~ /^# \d+ "([^\/<].*\.h)"/`: a header named by a
   * preprocessor line marker whose path starts with neither '/' nor '<'.
   * The greedy `.*` makes the capture end at the last `.h"` before a newline.
   */
  function MarkedHeader(line: string): (r: Option<string>)
    ensures r.Some? ==> |r.value| >= 3 && r.value[0] != '/' && r.value[0] != '<'
    ensures r.Some? ==> EndsWith(r.value, ".h")
  {
    match MarkerBody(line)
    case None => None
    case Some(v) => MarkedPath(v)
  }

  /** The line markers a preprocessor writes for a local header. */
  predicate IsMarker(line: string, digits: string, path: string, rest: string)
  {
    && AllDigits(digits) && digits != []
    && |path| >= 3 && path[0] != '/' && path[0] != '<' && EndsWith(path, ".h")
    && '"' !in path && '\n' !in path && '"' !in rest
    && line == "# " + digits + " \"" + path + "\"" + rest
  }

  lemma MarkerBodyOf(digits: string, v: string)
    requires AllDigits(digits) && digits != []
    ensures MarkerBody("# " + digits + " \"" + v) == Some(v)
  {
    var t := digits + (" \"" + v);
    assert "# " + digits + " \"" + v == "# " + t;
    assert ("# " + t)[..2] == "# " && ("# " + t)[2..] == t;
    DigitRunOf(digits, " \"" + v);
    assert t[|digits|..] == " \"" + v;
    assert (" \"" + v)[..2] == " \"";
  }

  lemma MarkedPathOf(path: string, rest: string)
    requires |path| >= 3 && path[0] != '/' && path[0] != '<' && EndsWith(path, ".h")
    requires '"' !in path && '\n' !in path && '"' !in rest
    ensures MarkedPath(path + "\"" + rest) == Some(path)
  {
    var v := path + "\"" + rest;
    var k := Reach(v);
    forall j | 1 <= j < |path|
      ensures v[j] != '\n'
    {
      assert v[j] == path[j];
      assert path[j] in path;
    }
    var e := |path| - 2;
    assert path[e..] == ".h";
    assert path[e] == '.' && path[e + 1] == 'h';
    assert DotHAt(v, e);
    forall j | e < j <= k
      ensures !DotHAt(v, j)
    {
      if j + 3 <= |v| {
        assert v[j + 2] == rest[j + 2 - |path| - 1];
        assert rest[j + 2 - |path| - 1] in rest;
      }
    }
    assert LastDotH(v, k) == Some(e);
    assert v[..e + 2] == path;
  }

  /** A marker for a local header yields that header's path. */
  lemma MarkedHeaderOfMarker(line: string, digits: string, path: string, rest: string)
    requires IsMarker(line, digits, path, rest)
    ensures MarkedHeader(line) == Some(path)
  {
    assert line == "# " + digits + " \"" + (path + "\"" + rest);
    MarkerBodyOf(digits, path + "\"" + rest);
    MarkedPathOf(path, rest);
  }

  // ---------------------------------------------------------------------
  // Scanning many lines
  // ---------------------------------------------------------------------

  /** What a line is matched against. */
  datatype LinePattern = Marker | Include(indented: bool)

  function Capture(p: LinePattern, line: string): Option<string>
  {
    match p
    case Marker => MarkedHeader(line)
    case Include(indented) => IncludedName(line, indented)
  }

  /** `$1` of every matching line, in line order: what the scanning loops push. */
  function Captures(lines: seq<string>, p: LinePattern): (r: seq<string>)
    ensures |r| <= |lines|
  {
    if lines == [] then []
    else
      var r0 := Captures(lines[..|lines| - 1], p);
      match Capture(p, lines[|lines| - 1])
      case Some(x) => r0 + [x]
      case None => r0
  }

  /** Every captured name comes from a line that yields it. */
  lemma {:induction false} CapturedFrom(lines: seq<string>, p: LinePattern, x: string) returns (i: nat)
    requires x in Captures(lines, p)
    ensures i < |lines| && Capture(p, lines[i]) == Some(x)
    decreases |lines|
  {
    var init := lines[..|lines| - 1];
    if x in Captures(init, p) {
      i := CapturedFrom(init, p, x);
      assert init[i] == lines[i];
    } else {
      i := |lines| - 1;
    }
  }

  /** Every line that yields a name has that name captured. */
  lemma {:induction false} CapturesLine(lines: seq<string>, p: LinePattern, i: nat)
    requires i < |lines| && Capture(p, lines[i]).Some?
    ensures Capture(p, lines[i]).value in Captures(lines, p)
    decreases |lines|
  {
    var n := |lines| - 1;
    if i < n {
      var init := lines[..n];
      assert init[i] == lines[i];
      CapturesLine(init, p, i);
      CapturesExtend(lines, p, Capture(p, lines[i]).value);
    } else {
      CapturedLast(lines, p);
    }
  }

  /** The captures of the lines are those of all but the last one, then the last one's, if any. */
  lemma CapturesLast(lines: seq<string>, p: LinePattern)
    requires lines != []
    ensures var c := Capture(p, lines[|lines| - 1]);
            Captures(lines, p) == Captures(lines[..|lines| - 1], p) + (if c.Some? then [c.value] else [])
  {
  }

  /** A name captured before the last line stays captured. */
  lemma CapturesExtend(lines: seq<string>, p: LinePattern, x: string)
    requires lines != [] && x in Captures(lines[..|lines| - 1], p)
    ensures x in Captures(lines, p)
  {
    CapturesLast(lines, p);
  }

  /** The last line's name, if it yields one, is captured. */
  lemma CapturedLast(lines: seq<string>, p: LinePattern)
    requires lines != [] && Capture(p, lines[|lines| - 1]).Some?
    ensures Capture(p, lines[|lines| - 1]).value in Captures(lines, p)
  {
    CapturesLast(lines, p);
  }

  /** A line that Ruby refuses to match because it is not valid in the source encoding. */
  datatype SourceLine = Text(s: string) | Undecodable

  function Decoded(lines: seq<SourceLine>): (r: seq<string>)
  {
    if lines == [] then []
    else
      var init := Decoded(lines[..|lines| - 1]);
      match lines[|lines| - 1]
      case Text(s) => init + [s]
      case Undecodable => init
  }

  function UndecodableCount(lines: seq<SourceLine>): nat
  {
    if lines == [] then 0
    else UndecodableCount(lines[..|lines| - 1]) + (if lines[|lines| - 1].Undecodable? then 1 else 0)
  }

  /** Scanning lines one by one and pushing each match gives the captures in line order. */
  method Scan(lines: seq<string>, p: LinePattern) returns (res: seq<string>)
    ensures res == Captures(lines, p)
  {
    res := [];
    var i := 0;
    while i < |lines|
      invariant 0 <= i <= |lines|
      invariant res == Captures(lines[..i], p)
    {
      assert lines[..i + 1][..i] == lines[..i];
      var c := Capture(p, lines[i]);
      if c.Some? {
        res := res + [c.value];
      }
      i := i + 1;
    }
    assert lines[..i] == lines;
  }

  /**
   * The scan that survives bad lines: a line that cannot be decoded is
   * skipped with a warning and the scan goes on.
   */
  method ScanWarning(lines: seq<SourceLine>, p: LinePattern) returns (res: seq<string>, warnings: nat)
    ensures res == Captures(Decoded(lines), p)
    ensures warnings == UndecodableCount(lines)
  {
    res := [];
    warnings := 0;
    var i := 0;
    while i < |lines|
      invariant 0 <= i <= |lines|
      invariant res == Captures(Decoded(lines[..i]), p)
      invariant warnings == UndecodableCount(lines[..i])
    {
      assert lines[..i + 1][..i] == lines[..i];
      match lines[i] {
        case Undecodable =>
          warnings := warnings + 1;
        case Text(s) =>
          var d := Decoded(lines[..i + 1]);
          assert d == Decoded(lines[..i]) + [s];
          assert d[..|d| - 1] == Decoded(lines[..i]);
          var c := Capture(p, s);
          if c.Some? {
            res := res + [c.value];
          }
      }
      i := i + 1;
    }
    assert lines[..i] == lines;
  }

  /** Every decodable line still counts: the warning-skip loses only the undecodable lines. */
  lemma {:induction false} DecodedKeepsText(lines: seq<SourceLine>, s: string)
    ensures s in Decoded(lines) <==> Text(s) in lines
    decreases |lines|
  {
    if lines != [] {
      var init := lines[..|lines| - 1];
      DecodedKeepsText(init, s);
      assert lines == init + [lines[|lines| - 1]];
    }
  }

  /** `lines.sort.uniq` of the captures: the distinct captured names in increasing order. */
  function SortedHeaders(lines: seq<string>, p: LinePattern): (r: seq<string>)
    ensures StrictlySorted(r)
    ensures forall x :: x in r <==> x in Captures(lines, p)
  {
    SortUniq(Captures(lines, p))
  }
}
