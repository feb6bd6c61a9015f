/**
 * The few Ruby regular expressions the build scripts apply to file names
 * and flag strings, each modelled by what it matches:
 *
 *   - `s.sub(/X$/, r)` and `s =~ /X$/` (optionally `/i`) where X is made of
 *     literal characters and unescaped dots; a dot matches any character
 *     except a newline and `$` matches at the end of any line;
 *   - `s.gsub(/ FLAG /, ' ')` and `s.gsub(/ PREFIX.*? /, ' ')`, which remove
 *     one space-delimited word at a time, resuming the scan AFTER the space
 *     that closed the removed word.
 */
module Patterns {
  import opened Strings

  // ---------------------------------------------------------------------
  // Anchored patterns
  // ---------------------------------------------------------------------

  datatype Atom = AnyChar | Lit(c: char)

  /** A pattern written with literal characters and unescaped dots. */
  function Atoms(p: string): (r: seq<Atom>)
    ensures |r| == |p|
    ensures forall i :: 0 <= i < |p| ==> r[i] == if p[i] == '.' then AnyChar else Lit(p[i])
  {
    seq(|p|, i requires 0 <= i < |p| => if p[i] == '.' then AnyChar else Lit(p[i]))
  }

  function LowerChar(c: char): char
  {
    if 'A' <= c <= 'Z' then (c as int + 32) as char else c
  }

  predicate AtomMatches(a: Atom, c: char, fold: bool)
  {
    match a
    case AnyChar => c != '\n'
    case Lit(l) => if fold then LowerChar(c) == LowerChar(l) else c == l
  }

  predicate MatchAt(s: string, i: nat, pat: seq<Atom>, fold: bool)
  {
    i + |pat| <= |s| && forall j :: 0 <= j < |pat| ==> AtomMatches(pat[j], s[i + j], fold)
  }

  /** Where `$` matches: the end of the string or just before a newline. */
  predicate LineEndAt(s: string, k: nat)
  {
    k == |s| || (k < |s| && s[k] == '\n')
  }

  predicate EolMatchAt(s: string, i: nat, pat: seq<Atom>, fold: bool)
  {
    MatchAt(s, i, pat, fold) && LineEndAt(s, i + |pat|)
  }

  /** The leftmost position at or after `i` where `pat$` matches. */
  function FirstEol(s: string, pat: seq<Atom>, fold: bool, i: nat): (r: Option<nat>)
    ensures r.Some? ==> i <= r.value && EolMatchAt(s, r.value, pat, fold)
    ensures r.Some? ==> forall j :: i <= j < r.value ==> !EolMatchAt(s, j, pat, fold)
    ensures r.None? ==> forall j :: i <= j ==> !EolMatchAt(s, j, pat, fold)
    decreases |s| - i
  {
    if i + |pat| > |s| then None
    else if EolMatchAt(s, i, pat, fold) then Some(i)
    else FirstEol(s, pat, fold, i + 1)
  }

  /** `s =~ /pattern$/` (with `/i` when `fold`). */
  predicate MatchesEol(s: string, pattern: string, fold: bool)
  {
    FirstEol(s, Atoms(pattern), fold, 0).Some?
  }

  /** `s.sub(/pattern$/, repl)`: the leftmost match is replaced. */
  function SubEol(s: string, pattern: string, repl: string): (r: string)
    ensures FirstEol(s, Atoms(pattern), false, 0).None? ==> r == s
  {
    match FirstEol(s, Atoms(pattern), false, 0)
    case None => s
    case Some(i) => s[..i] + repl + s[i + |pattern|..]
  }

  /** In a single-line string `pattern$` can only match at the very end. */
  lemma {:induction false} EolOnlyAtEnd(s: string, pat: seq<Atom>, fold: bool, i: nat)
    requires '\n' !in s
    requires EolMatchAt(s, i, pat, fold)
    ensures i + |pat| == |s|
  {
  }

  /** A single-line string whose suffix matches `pattern` has exactly that suffix replaced. */
  lemma SubEolSuffix(stem: string, tail: string, pattern: string, repl: string)
    requires '\n' !in stem + tail
    requires |tail| == |pattern| && MatchAt(tail, 0, Atoms(pattern), false)
    ensures SubEol(stem + tail, pattern, repl) == stem + repl
  {
    var s := stem + tail;
    var pat := Atoms(pattern);
    assert MatchAt(s, |stem|, pat, false) by {
      forall j | 0 <= j < |pat| ensures AtomMatches(pat[j], s[|stem| + j], false) {
        assert s[|stem| + j] == tail[j];
      }
    }
    assert EolMatchAt(s, |stem|, pat, false);
    var r := FirstEol(s, pat, false, 0);
    assert r.Some?;
    if r.value != |stem| {
      EolOnlyAtEnd(s, pat, false, r.value);
    }
    assert s[..|stem|] == stem;
    assert s[|stem| + |pattern|..] == [];
  }

  /** A single-line string whose suffix does not match `pattern` is left alone. */
  lemma SubEolNoMatch(s: string, pattern: string, repl: string)
    requires '\n' !in s
    requires |s| < |pattern| || !MatchAt(s, |s| - |pattern|, Atoms(pattern), false)
    ensures SubEol(s, pattern, repl) == s
  {
    var r := FirstEol(s, Atoms(pattern), false, 0);
    if r.Some? {
      EolOnlyAtEnd(s, Atoms(pattern), false, r.value);
    }
  }

  /** `s =~ /pattern$/` on a single-line string is a test of its suffix. */
  lemma MatchesEolSuffix(s: string, pattern: string, fold: bool)
    requires '\n' !in s
    ensures MatchesEol(s, pattern, fold) <==>
              |pattern| <= |s| && MatchAt(s, |s| - |pattern|, Atoms(pattern), fold)
  {
    var pat := Atoms(pattern);
    var r := FirstEol(s, pat, fold, 0);
    if r.Some? {
      EolOnlyAtEnd(s, pat, fold, r.value);
    }
    if |pattern| <= |s| && MatchAt(s, |s| - |pattern|, pat, fold) {
      assert EolMatchAt(s, |s| - |pattern|, pat, fold);
    }
  }

  // ---------------------------------------------------------------------
  // gsub of space-delimited flags
  // ---------------------------------------------------------------------

  /** `/ FLAG /` matches one exact word; `/ PREFIX.*? /` a word that starts with PREFIX and holds no newline. */
  datatype FlagPattern = Exact(flag: string) | Prefixed(prefix: string)

  predicate WordMatches(p: FlagPattern, w: string)
  {
    match p
    case Exact(f) => w == f
    case Prefixed(pre) => StartsWith(w, pre) && '\n' !in w
  }

  /** Index of the first space in `s`, or |s|. */
  function SpaceIndex(s: string): (k: nat)
    ensures k <= |s|
  {
    if s == [] || s[0] == ' ' then 0 else 1 + SpaceIndex(s[1..])
  }

  /** Does the pattern match at the start of `s`, i.e. is `s` = " " + word + " " + rest? */
  predicate FlagAt(s: string, p: FlagPattern)
  {
    |s| > 1 && s[0] == ' ' && SpaceIndex(s[1..]) < |s| - 1 && WordMatches(p, s[1..1 + SpaceIndex(s[1..])])
  }

  /** `s.gsub(pattern, ' ')` */
  function Gsub(s: string, p: FlagPattern): string
    decreases |s|
  {
    if s == [] then []
    else if FlagAt(s, p) then " " + Gsub(s[SpaceIndex(s[1..]) + 2..], p)
    else [s[0]] + Gsub(s[1..], p)
  }

  predicate NoSpace(w: string)
  {
    ' ' !in w
  }

  lemma {:induction false} SpaceIndexOfWord(w: string, rest: string)
    requires NoSpace(w)
    ensures SpaceIndex(w + " " + rest) == |w|
    decreases |w|
  {
    if w != [] {
      assert (w + " " + rest)[1..] == w[1..] + " " + rest;
      SpaceIndexOfWord(w[1..], rest);
    }
  }

  /** Characters before the next space are never the start of a match. */
  lemma {:induction false} GsubWordPrefix(w: string, x: string, p: FlagPattern)
    requires NoSpace(w)
    ensures Gsub(w + x, p) == w + Gsub(x, p)
    decreases |w|
  {
    if w != [] {
      var s := w + x;
      assert s[0] == w[0] && s[0] != ' ';
      assert s[1..] == w[1..] + x;
      GsubWordPrefix(w[1..], x, p);
      assert [w[0]] + (w[1..] + Gsub(x, p)) == w + Gsub(x, p);
    } else {
      assert w + x == x;
    }
  }

  /** Text with no space before its last character is never matched. */
  lemma GsubWordTail(w: string, p: FlagPattern)
    requires NoSpace(w)
    ensures Gsub(w + " ", p) == w + " "
  {
    GsubWordPrefix(w, " ", p);
    assert !FlagAt(" ", p);
    assert " "[1..] == [];
  }

  /** `" w rest"`: a matching word and its closing space are replaced by one space. */
  lemma GsubFirstWord(w: string, rest: string, p: FlagPattern)
    requires NoSpace(w)
    ensures FlagAt(" " + w + " " + rest, p) <==> WordMatches(p, w)
    ensures WordMatches(p, w) ==> Gsub(" " + w + " " + rest, p) == " " + Gsub(rest, p)
  {
    var s := " " + w + " " + rest;
    assert s[1..] == w + " " + rest;
    SpaceIndexOfWord(w, rest);
    assert s[1..1 + |w|] == w;
    assert s[|w| + 2..] == rest;
  }

  lemma {:induction false} SpaceIndexOfSpaceless(w: string)
    requires NoSpace(w)
    ensures SpaceIndex(w) == |w|
    decreases |w|
  {
    if w != [] {
      assert w[0] in w;
      SpaceIndexOfSpaceless(w[1..]);
    }
  }

  /** One step of the scan where no match starts. */
  lemma GsubStep(c: char, t: string, p: FlagPattern)
    requires !FlagAt([c] + t, p)
    ensures Gsub([c] + t, p) == [c] + Gsub(t, p)
  {
    assert ([c] + t)[1..] == t;
  }

  /** A word the pattern does not match is kept with its leading space. */
  lemma NoFlagAtUnmatched(w: string, x: string, p: FlagPattern)
    requires NoSpace(w) && !WordMatches(p, w)
    requires x == [] || x[0] == ' '
    ensures !FlagAt(" " + w + x, p)
  {
    var s := " " + w + x;
    var t := w + x;
    assert s[1..] == t;
    var k := SpaceIndex(t);
    if x == [] {
      assert t == w;
      SpaceIndexOfSpaceless(w);
    } else {
      var y := x[1..];
      assert x == " " + y;
      assert t == w + " " + y;
      SpaceIndexOfWord(w, y);
      assert s[1..1 + k] == w;
    }
  }

  lemma GsubWordUnmatched(w: string, x: string, p: FlagPattern)
    requires NoSpace(w) && !WordMatches(p, w)
    requires x == [] || x[0] == ' '
    ensures Gsub(" " + w + x, p) == " " + w + Gsub(x, p)
  {
    GsubUnmatchedStep(w, x, p);
    GsubWordPrefix(w, x, p);
    ConcatAssoc(" ", w, Gsub(x, p));
  }

  lemma ConcatAssoc(a: string, b: string, c: string)
    ensures a + (b + c) == a + b + c
  {
  }

  /** The space before an unmatched word is kept. */
  lemma GsubUnmatchedStep(w: string, x: string, p: FlagPattern)
    requires NoSpace(w) && !WordMatches(p, w)
    requires x == [] || x[0] == ' '
    ensures Gsub(" " + w + x, p) == " " + Gsub(w + x, p)
  {
    NoFlagAtUnmatched(w, x, p);
    assert " " + w + x == [' '] + (w + x);
    GsubStep(' ', w + x, p);
  }

  /** `" w1 w2 "` where the pattern matches neither word is left alone. */
  lemma GsubTwoWordsUnmatched(w1: string, w2: string, p: FlagPattern)
    requires NoSpace(w1) && NoSpace(w2)
    requires !WordMatches(p, w1) && !WordMatches(p, w2)
    ensures Gsub(" " + w1 + " " + w2 + " ", p) == " " + w1 + " " + w2 + " "
  {
    var tail := " " + w2 + " ";
    var s := " " + w1 + tail;
    assert s == " " + w1 + " " + w2 + " ";
    GsubWordTail("", p);
    assert "" + " " == " ";
    GsubWordUnmatched(w2, " ", p);
    assert Gsub(tail, p) == tail;
    GsubWordUnmatched(w1, tail, p);
  }

  /** `" w1 w2 "` where the pattern matches the first word leaves `" w2 "`, whatever w2 is. */
  lemma GsubSkipsSecond(w1: string, w2: string, p: FlagPattern)
    requires NoSpace(w1) && NoSpace(w2)
    requires WordMatches(p, w1)
    ensures Gsub(" " + w1 + " " + w2 + " ", p) == " " + w2 + " "
  {
    var r := w2 + " ";
    SpacedPairRegroup(w1, w2);
    GsubFirstWord(w1, r, p);
    GsubWordTail(w2, p);
  }

  /** `" w1 w2 "` is `" w1 "` followed by `"w2 "`. */
  lemma SpacedPairRegroup(w1: string, w2: string)
    ensures " " + w1 + " " + w2 + " " == " " + w1 + " " + (w2 + " ")
    ensures " " + (w2 + " ") == " " + w2 + " "
  {
  }

  // ---------------------------------------------------------------------
  // String#split on one separator character, and its inverse Array#join
  // ---------------------------------------------------------------------

  /** The pieces of `s` between occurrences of `c` (empty pieces kept). */
  function SplitOn(s: string, c: char): (r: seq<string>)
    ensures |r| > 0
    ensures forall i :: 0 <= i < |r| ==> c !in r[i]
    decreases |s|
  {
    if s == [] then [""]
    else
      var rest := SplitOn(s[1..], c);
      if s[0] == c then [""] + rest
      else [[s[0]] + rest[0]] + rest[1..]
  }

  /** Splitting and re-joining gives back the string. */
  lemma {:induction false} JoinSplitOn(s: string, c: char)
    ensures Join(SplitOn(s, c), [c]) == s
    decreases |s|
  {
    if s != [] {
      var rest := SplitOn(s[1..], c);
      JoinSplitOn(s[1..], c);
      if s[0] == c {
        assert [""] + rest == [""] + rest;
        JoinCons("", rest, [c]);
      } else {
        var r := [[s[0]] + rest[0]] + rest[1..];
        if |rest| == 1 {
        } else {
          assert r[1..] == rest[1..];
          assert rest == [rest[0]] + rest[1..];
          JoinCons(rest[0], rest[1..], [c]);
          JoinCons([s[0]] + rest[0], rest[1..], [c]);
        }
      }
    }
  }

  /** Splitting `a + c + b` on `c` splits `a` and `b` on their own. */
  lemma {:induction false} SplitOnConcat(a: string, b: string, c: char)
    ensures SplitOn(a + [c] + b, c) == SplitOn(a, c) + SplitOn(b, c)
    decreases |a|
  {
    if a == [] {
      assert a + [c] + b == [c] + b;
      assert ([c] + b)[1..] == b;
    } else {
      var s := a + [c] + b;
      assert s[1..] == a[1..] + [c] + b;
      assert s[0] == a[0];
      SplitOnConcat(a[1..], b, c);
    }
  }

  /** Appending `c` and a piece without `c` appends that piece. */
  lemma SplitOnAppendPiece(a: string, w: string, c: char)
    requires c !in w
    ensures SplitOn(a + [c] + w, c) == SplitOn(a, c) + [w]
  {
    SplitOnConcat(a, w, c);
    SplitOnWord(w, "", c);
    assert w + "" == w;
  }

  lemma JoinCons(x: string, xs: seq<string>, sep: string)
    requires xs != []
    ensures Join([x] + xs, sep) == x + sep + Join(xs, sep)
  {
    assert ([x] + xs)[1..] == xs;
  }

  /** Joining pieces that avoid `c` and splitting again gives back the pieces. */
  lemma {:induction false} SplitOnJoin(ts: seq<string>, c: char)
    requires ts != []
    requires forall i :: 0 <= i < |ts| ==> c !in ts[i]
    ensures SplitOn(Join(ts, [c]), c) == ts
    decreases |ts|
  {
    if |ts| == 1 {
      SplitOnWord(ts[0], "", c);
      assert ts[0] + "" == ts[0];
      assert SplitOn("", c) == [""];
    } else {
      SplitOnJoin(ts[1..], c);
      SplitOnJoinStep(ts[0], ts[1..], c);
      assert ts == [ts[0]] + ts[1..];
    }
  }

  /** The step of `SplitOnJoin`: one more piece in front. */
  lemma SplitOnJoinStep(t: string, ts: seq<string>, c: char)
    requires ts != [] && c !in t
    requires SplitOn(Join(ts, [c]), c) == ts
    ensures SplitOn(Join([t] + ts, [c]), c) == [t] + ts
  {
    JoinCons(t, ts, [c]);
    var rest := Join(ts, [c]);
    SplitOnWord(t, [c] + rest, c);
    assert t + [c] + rest == t + ([c] + rest);
    assert ([c] + rest)[1..] == rest;
    assert ([c] + rest)[0] == c;
    assert SplitOn([c] + rest, c) == [""] + ts;
    assert t + "" == t;
  }

  /** A piece without `c` stays glued to what follows it. */
  lemma {:induction false} SplitOnWord(w: string, rest: string, c: char)
    requires c !in w
    ensures SplitOn(w + rest, c) == [w + SplitOn(rest, c)[0]] + SplitOn(rest, c)[1..]
    decreases |w|
  {
    if w != [] {
      assert (w + rest)[1..] == w[1..] + rest;
      SplitOnWord(w[1..], rest, c);
      assert [w[0]] + (w[1..] + SplitOn(rest, c)[0]) == w + SplitOn(rest, c)[0];
    } else {
      assert w + rest == rest;
      var r := SplitOn(rest, c);
      assert r == [r[0]] + r[1..];
      assert w + r[0] == r[0];
    }
  }

  // ---------------------------------------------------------------------
  // The vendor test and object names
  // ---------------------------------------------------------------------

  /** The vendor test `path =~ /cl.exe$/i`. */
  predicate IsClExe(path: string)
  {
    MatchesEol(path, "cl.exe", true)
  }

  lemma DotMatches(stem: string, x: char, ext: string)
    requires x != '\n'
    ensures MatchAt([x] + ext, 0, Atoms("." + ext), false)
  {
    var pat := Atoms("." + ext);
    forall j | 0 <= j < |pat| ensures AtomMatches(pat[j], ([x] + ext)[j], false) {
      if j > 0 {
        assert ("." + ext)[j] == ext[j - 1];
        assert ([x] + ext)[j] == ext[j - 1];
      }
    }
  }

  /**
   * `src.sub(/.c$/, suffix)` on a single-line source ending in any
   * character followed by `c` replaces those two characters by the suffix.
   */
  lemma ObjectOfSource(stem: string, x: char, suffix: string)
    requires '\n' !in stem && x != '\n'
    ensures SubEol(stem + [x, 'c'], ".c", suffix) == stem + suffix
  {
    DotMatches(stem, x, "c");
    assert [x] + "c" == [x, 'c'];
    assert '\n' !in stem + [x, 'c'];
    SubEolSuffix(stem, [x, 'c'], ".c", suffix);
  }
}
