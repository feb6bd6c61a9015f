/**
 * Text helpers that stand for the Ruby core methods makeconf relies on:
 * Array#join, String#split(' '), the byte-wise String ordering used by
 * Array#sort, Array#uniq, ASCII String#upcase, and prefix / suffix /
 * substring tests.
 */
module Strings {

  // ---------------------------------------------------------------------
  // Result and Option (error paths of the Ruby code: raise / throw)
  // ---------------------------------------------------------------------

  datatype Option<T> = None | Some(value: T)

  datatype Result<T> = Ok(value: T) | Err(error: string)
  {
    predicate IsOk() { Ok? }
  }

  // ---------------------------------------------------------------------
  // Prefix, suffix, substring
  // ---------------------------------------------------------------------

  predicate StartsWith(s: string, p: string)
  {
    |p| <= |s| && s[..|p|] == p
  }

  predicate EndsWith(s: string, p: string)
  {
    |p| <= |s| && s[|s| - |p|..] == p
  }

  /** `sub` occurs somewhere in `s` (Ruby's `s =~ /sub/` for a literal). */
  predicate Contains(s: string, sub: string)
    decreases |s|
  {
    StartsWith(s, sub) || (|s| > 0 && Contains(s[1..], sub))
  }

  lemma {:induction false} ContainsAt(s: string, sub: string, i: nat)
    requires i + |sub| <= |s| && s[i..i + |sub|] == sub
    ensures Contains(s, sub)
    decreases i
  {
    if i == 0 {
      assert s[..|sub|] == sub;
    } else {
      assert s[1..][i - 1..i - 1 + |sub|] == s[i..i + |sub|];
      ContainsAt(s[1..], sub, i - 1);
    }
  }

  lemma {:induction false} ContainsInfix(a: string, sub: string, b: string)
    ensures Contains(a + sub + b, sub)
  {
    var s := a + sub + b;
    assert s[|a|..|a| + |sub|] == sub;
    ContainsAt(s, sub, |a|);
  }

  // ---------------------------------------------------------------------
  // Array#join
  // ---------------------------------------------------------------------

  /** `xs.join(sep)` for a flat list of strings. */
  function Join(xs: seq<string>, sep: string): string
  {
    if |xs| == 0 then ""
    else if |xs| == 1 then xs[0]
    else xs[0] + sep + Join(xs[1..], sep)
  }

  /** `xs.join(' ')`, the only separator the build scripts use. */
  function Spaced(xs: seq<string>): string
  {
    Join(xs, " ")
  }

  lemma {:induction false} JoinAppend(xs: seq<string>, x: string, sep: string)
    ensures Join(xs + [x], sep) == if xs == [] then x else Join(xs, sep) + sep + x
    decreases |xs|
  {
    if |xs| == 0 {
      assert xs + [x] == [x];
    } else if |xs| == 1 {
      assert xs + [x] == [xs[0], x];
      assert [xs[0], x][1..] == [x];
    } else {
      assert (xs + [x])[1..] == xs[1..] + [x];
      JoinAppend(xs[1..], x, sep);
    }
  }

  lemma {:induction false} JoinConcat(xs: seq<string>, ys: seq<string>, sep: string)
    requires xs != [] && ys != []
    ensures Join(xs + ys, sep) == Join(xs, sep) + sep + Join(ys, sep)
    decreases |xs|
  {
    if |xs| == 1 {
      assert xs + ys == [xs[0]] + ys;
      assert (xs + ys)[1..] == ys;
    } else {
      assert (xs + ys)[1..] == xs[1..] + ys;
      JoinConcat(xs[1..], ys, sep);
    }
  }

  lemma SpacedCons(x: string, xs: seq<string>)
    requires xs != []
    ensures Spaced([x] + xs) == x + " " + Spaced(xs)
  {
    assert ([x] + xs)[1..] == xs;
  }

  lemma SpacedPair(a: string, b: string)
    ensures Spaced([a, b]) == a + " " + b
  {
    SpacedCons(a, [b]);
    assert [a] + [b] == [a, b];
  }

  lemma SpacedTriple(a: string, b: string, c: string)
    ensures Spaced([a, b, c]) == a + " " + b + " " + c
  {
    SpacedCons(a, [b, c]);
    SpacedPair(b, c);
    assert [a] + [b, c] == [a, b, c];
  }

  /** A character that occurs in no element and not in the separator does not occur in the join. */
  lemma {:induction false} JoinAvoids(xs: seq<string>, sep: string, c: char)
    requires c !in sep
    requires forall i :: 0 <= i < |xs| ==> c !in xs[i]
    ensures c !in Join(xs, sep)
    decreases |xs|
  {
    if |xs| > 1 {
      JoinAvoids(xs[1..], sep, c);
    }
  }

  /** Every element of a list occurs in its join. */
  lemma {:induction false} JoinContains(xs: seq<string>, sep: string, i: nat)
    requires i < |xs|
    ensures Contains(Join(xs, sep), xs[i])
    decreases i
  {
    if |xs| == 1 {
      ContainsInfix("", xs[0], "");
      assert "" + xs[0] + "" == xs[0];
    } else if i == 0 {
      ContainsInfix("", xs[0], sep + Join(xs[1..], sep));
      assert "" + xs[0] + (sep + Join(xs[1..], sep)) == Join(xs, sep);
    } else {
      JoinContains(xs[1..], sep, i - 1);
      ContainsSuffix(xs[0] + sep, Join(xs[1..], sep), xs[i]);
    }
  }

  lemma {:induction false} ContainsSuffix(a: string, b: string, sub: string)
    requires Contains(b, sub)
    ensures Contains(a + b, sub)
    decreases |a|
  {
    if |a| > 0 {
      assert (a + b)[1..] == a[1..] + b;
      ContainsSuffix(a[1..], b, sub);
    } else {
      assert a + b == b;
    }
  }

  lemma {:induction false} ContainsPrefix(a: string, b: string, sub: string)
    requires Contains(a, sub)
    ensures Contains(a + b, sub)
    decreases |a|
  {
    if StartsWith(a, sub) {
      assert (a + b)[..|sub|] == a[..|sub|];
    } else {
      ContainsPrefix(a[1..], b, sub);
      assert (a + b)[1..] == a[1..] + b;
    }
  }

  /** A text that holds `mid`, which holds `sub`, holds `sub`. */
  lemma {:induction false} ContainsTransitive(s: string, mid: string, sub: string)
    requires Contains(s, mid) && Contains(mid, sub)
    ensures Contains(s, sub)
    decreases |s|
  {
    if StartsWith(s, mid) {
      assert s == mid + s[|mid|..];
      ContainsPrefix(mid, s[|mid|..], sub);
    } else {
      ContainsTransitive(s[1..], mid, sub);
    }
  }

  // ---------------------------------------------------------------------
  // String#split(' '): awk-style splitting on runs of white space
  // ---------------------------------------------------------------------

  predicate IsSpace(c: char)
  {
    c == ' ' || c == '\t' || c == '\n' || c == '\r' || c == '\U{000B}' || c == '\U{000C}'
  }

  /** A non-empty string without white space: what split(' ') can return. */
  predicate IsWord(w: string)
  {
    |w| > 0 && forall i :: 0 <= i < |w| ==> !IsSpace(w[i])
  }

  predicate AllWords(ws: seq<string>)
  {
    forall i :: 0 <= i < |ws| ==> IsWord(ws[i])
  }

  /** Length of the leading run of non-space characters of `s`. */
  function WordLength(s: string): (n: nat)
    ensures n <= |s|
    ensures forall i :: 0 <= i < n ==> !IsSpace(s[i])
    ensures n < |s| ==> IsSpace(s[n])
  {
    if s == [] || IsSpace(s[0]) then 0 else 1 + WordLength(s[1..])
  }

  /** `s.split(' ')`: the maximal runs of non-space characters, in order. */
  function Words(s: string): (ws: seq<string>)
    decreases |s|
  {
    if s == [] then []
    else if IsSpace(s[0]) then Words(s[1..])
    else
      var n := WordLength(s);
      [s[..n]] + Words(s[n..])
  }

  lemma {:induction false} WordLengthOfWord(w: string, rest: string)
    requires IsWord(w)
    requires rest == [] || IsSpace(rest[0])
    ensures WordLength(w + rest) == |w|
    decreases |w|
  {
    if |w| == 1 {
      assert (w + rest)[1..] == rest;
    } else {
      assert (w + rest)[1..] == w[1..] + rest;
      WordLengthOfWord(w[1..], rest);
    }
  }

  /** Splitting a space-joined list of words gives the words back. */
  lemma {:induction false} WordsOfSpaced(ws: seq<string>)
    requires AllWords(ws)
    ensures Words(Spaced(ws)) == ws
    decreases |ws|
  {
    if |ws| == 0 {
    } else if |ws| == 1 {
      var w := ws[0];
      WordLengthOfWord(w, "");
      assert w + "" == w;
      assert w[|w|..] == [];
      assert w[..|w|] == w;
    } else {
      var w := ws[0];
      var rest := " " + Spaced(ws[1..]);
      assert Spaced(ws) == w + rest;
      WordLengthOfWord(w, rest);
      assert (w + rest)[..|w|] == w;
      assert (w + rest)[|w|..] == rest;
      assert rest[1..] == Spaced(ws[1..]);
      WordsOfSpaced(ws[1..]);
    }
  }

  lemma {:induction false} WordsOfWord(w: string)
    requires IsWord(w)
    ensures Words(w) == [w]
  {
    WordsOfSpaced([w]);
  }

  lemma {:induction false} WordLengthAppend(a: string, b: string)
    requires WordLength(a) < |a|
    ensures WordLength(a + b) == WordLength(a)
    decreases |a|
  {
    if !IsSpace(a[0]) {
      assert (a + b)[1..] == a[1..] + b;
      WordLengthAppend(a[1..], b);
    }
  }

  lemma {:induction false} WordLengthWhole(a: string, b: string)
    requires WordLength(a) == |a|
    requires b == [] || IsSpace(b[0])
    ensures WordLength(a + b) == |a|
    decreases |a|
  {
    if a == [] {
      assert a + b == b;
    } else {
      assert (a + b)[1..] == a[1..] + b;
      WordLengthWhole(a[1..], b);
    }
  }

  /** Splitting two pieces separated by white space splits each piece on its own. */
  lemma {:induction false} WordsConcat(a: string, b: string)
    requires a == [] || b == [] || IsSpace(a[|a| - 1]) || IsSpace(b[0])
    ensures Words(a + b) == Words(a) + Words(b)
    decreases |a|, 1
  {
    if b == [] {
      assert a + b == a;
    } else if a == [] {
      assert a + b == b;
    } else if IsSpace(a[0]) {
      WordsConcatSpace(a, b);
    } else if WordLength(a) < |a| {
      WordsConcatWord(a, b);
    } else {
      WordsConcatWhole(a, b);
    }
  }

  lemma {:induction false} WordsConcatSpace(a: string, b: string)
    requires a != [] && IsSpace(a[0])
    requires b == [] || IsSpace(a[|a| - 1]) || IsSpace(b[0])
    ensures Words(a + b) == Words(a) + Words(b)
    decreases |a|, 0
  {
    assert (a + b)[1..] == a[1..] + b;
    assert Words(a + b) == Words(a[1..] + b);
    WordsConcat(a[1..], b);
    assert Words(a) == Words(a[1..]);
  }

  lemma {:induction false} WordsConcatWord(a: string, b: string)
    requires a != [] && !IsSpace(a[0]) && WordLength(a) < |a|
    requires b == [] || IsSpace(a[|a| - 1]) || IsSpace(b[0])
    ensures Words(a + b) == Words(a) + Words(b)
    decreases |a|, 0
  {
    var n := WordLength(a);
    assert a[n..][|a[n..]| - 1] == a[|a| - 1];
    WordLengthAppend(a, b);
    assert (a + b)[..n] == a[..n];
    assert (a + b)[n..] == a[n..] + b;
    assert Words(a + b) == [a[..n]] + Words(a[n..] + b);
    WordsConcat(a[n..], b);
    assert Words(a) == [a[..n]] + Words(a[n..]);
  }

  lemma WordsConcatWhole(a: string, b: string)
    requires a != [] && !IsSpace(a[0]) && WordLength(a) == |a|
    requires b == [] || IsSpace(a[|a| - 1]) || IsSpace(b[0])
    ensures Words(a + b) == Words(a) + Words(b)
  {
    var n := |a|;
    assert !IsSpace(a[n - 1]);
    WordLengthWhole(a, b);
    assert (a + b)[..n] == a;
    assert (a + b)[n..] == b;
    assert Words(a + b) == [a] + Words(b);
    assert a[..n] == a && a[n..] == [];
    assert Words(a) == [a];
  }

  /** Appending a space and one word appends that word. */
  lemma WordsAppendWord(x: string, w: string)
    requires IsWord(w)
    ensures Words(x + " " + w) == Words(x) + [w]
  {
    WordsSpaced(x, w);
    WordsOfWord(w);
  }

  /** `(a + " " + b).split(' ')` is `a.split(' ') + b.split(' ')`. */
  lemma WordsSpaced(a: string, b: string)
    ensures Words(a + " " + b) == Words(a) + Words(b)
  {
    WordsConcat(a, " ");
    WordsConcat(a + " ", b);
    assert Words(" ") == Words(" "[1..]);
    assert " "[1..] == [];
  }

  // ---------------------------------------------------------------------
  // Byte-wise ordering (String#<=>), sorting and uniq
  // ---------------------------------------------------------------------

  /** `a <= b` in Ruby's byte-wise string order. */
  predicate Below(a: string, b: string)
    decreases |a|
  {
    |a| == 0 || (|b| != 0 && (a[0] < b[0] || (a[0] == b[0] && Below(a[1..], b[1..]))))
  }

  lemma {:induction false} BelowTotal(a: string, b: string)
    ensures Below(a, b) || Below(b, a)
    decreases |a|
  {
    if |a| != 0 && |b| != 0 && a[0] == b[0] {
      BelowTotal(a[1..], b[1..]);
    }
  }

  lemma {:induction false} BelowAntisymmetric(a: string, b: string)
    requires Below(a, b) && Below(b, a)
    ensures a == b
    decreases |a|
  {
    if |a| != 0 {
      BelowAntisymmetric(a[1..], b[1..]);
      assert a == [a[0]] + a[1..];
      assert b == [b[0]] + b[1..];
    }
  }

  lemma {:induction false} BelowReflexive(a: string)
    ensures Below(a, a)
    decreases |a|
  {
    if |a| != 0 {
      BelowReflexive(a[1..]);
    }
  }

  lemma {:induction false} BelowTransitive(a: string, b: string, c: string)
    requires Below(a, b) && Below(b, c)
    ensures Below(a, c)
    decreases |a|
  {
    if |a| != 0 && a[0] == b[0] && b[0] == c[0] {
      BelowTransitive(a[1..], b[1..], c[1..]);
    }
  }

  /** Every element is at most every later one. */
  predicate Sorted(s: seq<string>)
  {
    forall i, j :: 0 <= i < j < |s| ==> Below(s[i], s[j])
  }

  /** Sorted with no repeated element: the shape of `sort.uniq`. */
  predicate StrictlySorted(s: seq<string>)
  {
    forall i, j :: 0 <= i < j < |s| ==> Below(s[i], s[j]) && s[i] != s[j]
  }

  predicate NoDuplicates<T(==)>(s: seq<T>)
  {
    forall i, j :: 0 <= i < j < |s| ==> s[i] != s[j]
  }

  lemma NoDuplicatesPrefix<T>(s: seq<T>, x: T)
    requires NoDuplicates(s + [x])
    ensures NoDuplicates(s) && x !in s
  {
    forall i, j | 0 <= i < j < |s| ensures s[i] != s[j] {
      assert (s + [x])[i] == s[i] && (s + [x])[j] == s[j];
    }
    forall i | 0 <= i < |s| ensures s[i] != x {
      assert (s + [x])[i] == s[i] && (s + [x])[|s|] == x;
    }
  }

  lemma NoDuplicatesCons<T>(x: T, s: seq<T>)
    requires NoDuplicates(s) && x !in s
    ensures NoDuplicates([x] + s)
  {
    var xs := [x] + s;
    forall i, j | 0 <= i < j < |xs| ensures xs[i] != xs[j] {
      assert xs[j] == s[j - 1];
      if i > 0 {
        assert xs[i] == s[i - 1];
      }
    }
  }

  function Insert(x: string, s: seq<string>): (r: seq<string>)
    requires Sorted(s)
    ensures Sorted(r)
    ensures multiset(r) == multiset(s) + multiset{x}
    ensures |r| == |s| + 1
  {
    if s == [] then [x]
    else if Below(x, s[0]) then
      forall j | 0 <= j < |s| ensures Below(x, s[j]) { if j > 0 { BelowTransitive(x, s[0], s[j]); } }
      SortedCons(x, s);
      [x] + s
    else
      BelowTotal(x, s[0]);
      var tail := Insert(x, s[1..]);
      assert s == [s[0]] + s[1..];
      InsertedAbove(s[0], x, s[1..], tail);
      SortedCons(s[0], tail);
      [s[0]] + tail
  }

  lemma SortedCons(x: string, s: seq<string>)
    requires Sorted(s)
    requires forall j :: 0 <= j < |s| ==> Below(x, s[j])
    ensures Sorted([x] + s)
  {
  }

  /** A lower bound of `s` and of `x` bounds every element of `x` inserted into `s`. */
  lemma InsertedAbove(lo: string, x: string, s: seq<string>, r: seq<string>)
    requires Below(lo, x) && forall j :: 0 <= j < |s| ==> Below(lo, s[j])
    requires multiset(r) == multiset(s) + multiset{x}
    ensures forall j :: 0 <= j < |r| ==> Below(lo, r[j])
  {
    forall j | 0 <= j < |r| ensures Below(lo, r[j]) {
      assert r[j] in multiset(r);
      if r[j] != x {
        assert r[j] in multiset(s);
      }
    }
  }

  /** `s.sort`: the sorted permutation of `s`. */
  function Sort(s: seq<string>): (r: seq<string>)
    ensures Sorted(r)
    ensures multiset(r) == multiset(s)
    ensures |r| == |s|
  {
    if s == [] then []
    else
      assert s == [s[0]] + s[1..];
      Insert(s[0], Sort(s[1..]))
  }

  /** `s.uniq`: the first occurrence of each element, in order. */
  function Uniq<T(==,!new)>(s: seq<T>): (r: seq<T>)
    ensures NoDuplicates(r)
    ensures forall x :: x in r <==> x in s
    ensures |r| <= |s|
  {
    if s == [] then []
    else
      var u := Uniq(s[..|s| - 1]);
      var x := s[|s| - 1];
      assert s == s[..|s| - 1] + [x];
      if x in u then u else u + [x]
  }

  lemma {:induction false} UniqAppend<T(!new)>(s: seq<T>, x: T)
    ensures Uniq(s + [x]) == if x in Uniq(s) then Uniq(s) else Uniq(s) + [x]
  {
    assert (s + [x])[..|s + [x]| - 1] == s;
  }

  /** A list without repetitions is its own `uniq`. */
  lemma {:induction false} UniqOfDistinct<T(!new)>(s: seq<T>)
    requires NoDuplicates(s)
    ensures Uniq(s) == s
    decreases |s|
  {
    if s != [] {
      var p := s[..|s| - 1];
      UniqOfDistinct(p);
      assert s == p + [s[|s| - 1]];
    }
  }

  /** `s.sort.uniq`: the distinct elements of `s` in increasing order. */
  function SortUniq(s: seq<string>): (r: seq<string>)
    ensures StrictlySorted(r)
    ensures forall x :: x in r <==> x in s
  {
    var sorted := Sort(s);
    assert forall x :: x in sorted <==> x in multiset(sorted);
    UniqSorted(sorted);
    Uniq(sorted)
  }

  lemma {:induction false} UniqSorted(s: seq<string>)
    requires Sorted(s)
    ensures StrictlySorted(Uniq(s))
    decreases |s|
  {
    if s != [] {
      var p := s[..|s| - 1];
      var x := s[|s| - 1];
      UniqSorted(p);
      assert s == p + [x];
      var u := Uniq(p);
      if x !in u {
        forall i | 0 <= i < |u| ensures Below(u[i], x) {
          assert u[i] in p;
        }
      }
    }
  }

  /** Two strictly sorted lists with the same elements are equal. */
  lemma {:induction false} StrictlySortedUnique(a: seq<string>, b: seq<string>)
    requires StrictlySorted(a) && StrictlySorted(b)
    requires forall x :: x in a <==> x in b
    ensures a == b
    decreases |a| + |b|
  {
    if a != [] { assert a[0] in a; }
    if b != [] { assert b[0] in b; }
    if a != [] && b != [] {
      // both heads are the minimum of the same set
      assert b[0] in a;
      assert a[0] in b;
      if a[0] != b[0] {
        var i :| 0 <= i < |a| && a[i] == b[0];
        var j :| 0 <= j < |b| && b[j] == a[0];
        assert Below(a[0], a[i]);
        assert Below(b[0], b[j]);
        BelowAntisymmetric(a[0], b[0]);
        assert false;
      }
      forall x ensures x in a[1..] <==> x in b[1..] {
        if x in a[1..] {
          var i :| 1 <= i < |a| && a[i] == x;
          assert x in b;
          assert x != b[0];
        }
        if x in b[1..] {
          var j :| 1 <= j < |b| && b[j] == x;
          assert x in a;
          assert x != a[0];
        }
      }
      StrictlySortedUnique(a[1..], b[1..]);
      assert a == [a[0]] + a[1..];
      assert b == [b[0]] + b[1..];
    }
  }

  /** `sort.uniq` depends only on which elements are present, not on their order or repetition. */
  lemma SortUniqOfSameElements(s: seq<string>, t: seq<string>)
    requires forall x :: x in s <==> x in t
    ensures SortUniq(s) == SortUniq(t)
  {
    StrictlySortedUnique(SortUniq(s), SortUniq(t));
  }

  // ---------------------------------------------------------------------
  // Sorted key lists for hashes (Array#sort on Hash#keys / Hash#sort)
  // ---------------------------------------------------------------------

  lemma {:induction false} MinimumOf(s: set<string>) returns (m: string)
    requires s != {}
    ensures m in s && forall y :: y in s ==> Below(m, y)
    decreases s
  {
    var x :| x in s;
    BelowReflexive(x);
    if s == {x} {
      m := x;
    } else {
      var rest := s - {x};
      var r := MinimumOf(rest);
      BelowTotal(r, x);
      if Below(r, x) {
        m := r;
      } else {
        m := x;
        forall y | y in s ensures Below(x, y) {
          if y != x {
            assert y in rest;
            BelowTransitive(x, r, y);
          }
        }
      }
    }
  }

  lemma MinimumExists(s: set<string>)
    requires s != {}
    ensures exists m :: m in s && forall y :: y in s ==> Below(m, y)
  {
    var m := MinimumOf(s);
  }

  /** The elements of a finite set of names in increasing order. */
  ghost function SortedElements(s: set<string>): (r: seq<string>)
    ensures StrictlySorted(r)
    ensures forall x :: x in r <==> x in s
    ensures |r| == |s|
    decreases s
  {
    if s == {} then []
    else
      MinimumExists(s);
      var m :| m in s && forall y :: y in s ==> Below(m, y);
      var tail := SortedElements(s - {m});
      assert forall j :: 0 <= j < |tail| ==> tail[j] in s - {m};
      [m] + tail
  }

  /** Where an element of the set sits in its sorted sequence. */
  lemma SortedIndex(s: set<string>, x: string) returns (i: nat)
    requires x in s
    ensures i < |SortedElements(s)| && SortedElements(s)[i] == x
  {
    var r := SortedElements(s);
    assert x in r;
    i :| 0 <= i < |r| && r[i] == x;
  }

  // ---------------------------------------------------------------------
  // Character mapping
  // ---------------------------------------------------------------------

  function UpChar(c: char): char
  {
    if 'a' <= c <= 'z' then (c as int - 32) as char else c
  }

  /** ASCII `String#upcase`. */
  function Upcase(s: string): (r: string)
    ensures |r| == |s|
    ensures forall i :: 0 <= i < |s| ==> r[i] == UpChar(s[i])
  {
    seq(|s|, i requires 0 <= i < |s| => UpChar(s[i]))
  }

  /** `s.gsub(/[set]/, '_')` for a character class `set`. */
  function Underscore(s: string, chars: set<char>): (r: string)
    ensures |r| == |s|
    ensures forall i :: 0 <= i < |s| ==> r[i] == if s[i] in chars then '_' else s[i]
  {
    seq(|s|, i requires 0 <= i < |s| => if s[i] in chars then '_' else s[i])
  }

  // ---------------------------------------------------------------------
  // Paths
  // ---------------------------------------------------------------------

  /** Index of the first occurrence of `c` in `s`, if any. */
  function IndexOf(s: string, c: char): (r: Option<nat>)
    ensures r.Some? ==> r.value < |s| && s[r.value] == c
                        && forall j :: 0 <= j < r.value ==> s[j] != c
    ensures r.None? ==> c !in s
    decreases |s|
  {
    if s == [] then None
    else if s[0] == c then Some(0)
    else match IndexOf(s[1..], c)
      case None => None
      case Some(i) => Some(i + 1)
  }

  /** Index of the last occurrence of `c` in `s`, if any. */
  function LastIndexOf(s: string, c: char): (r: Option<nat>)
    ensures r.Some? ==> r.value < |s| && s[r.value] == c
                        && forall j :: r.value < j < |s| ==> s[j] != c
    ensures r.None? ==> forall j :: 0 <= j < |s| ==> s[j] != c
    decreases |s|
  {
    if s == [] then None
    else if s[|s| - 1] == c then Some(|s| - 1)
    else LastIndexOf(s[..|s| - 1], c)
  }

  /** `s` with trailing '/' characters removed, keeping at least one character. */
  function TrimSlashes(s: string): (r: string)
    ensures |r| <= |s| && r == s[..|r|]
    ensures |s| > 0 ==> |r| > 0
    decreases |s|
  {
    if |s| > 1 && s[|s| - 1] == '/' then TrimSlashes(s[..|s| - 1]) else s
  }

  /** `File.basename(path)`: the last path component. */
  function Basename(path: string): (r: string)
    ensures |r| <= |path|
  {
    var t := TrimSlashes(path);
    if t == "/" then t
    else match LastIndexOf(t, '/')
      case None => t
      case Some(i) => t[i + 1..]
  }

  /** `File.dirname(path)`: everything before the last path component. */
  function Dirname(path: string): (r: string)
    ensures |r| > 0
  {
    var t := TrimSlashes(path);
    match LastIndexOf(t, '/')
    case None => "."
    case Some(i) => if i == 0 then "/" else TrimSlashes(t[..i])
  }

  lemma BasenameOfPlain(name: string)
    requires |name| > 0 && forall i :: 0 <= i < |name| ==> name[i] != '/'
    ensures Basename(name) == name
  {
  }

  /** For "dir/name", dirname is "dir" and basename is "name". */
  lemma {:induction false} SplitPath(dir: string, name: string)
    requires |dir| > 0 && dir[|dir| - 1] != '/' && dir[0] != '/'
    requires |name| > 0 && forall i :: 0 <= i < |name| ==> name[i] != '/'
    ensures Dirname(dir + "/" + name) == dir
    ensures Basename(dir + "/" + name) == name
  {
    var p := dir + "/" + name;
    assert TrimSlashes(p) == p;
    var r := LastIndexOf(p, '/');
    assert p[|dir|] == '/';
    assert forall j :: |dir| < j < |p| ==> p[j] == name[j - |dir| - 1];
    assert r.Some?;
    assert r.value == |dir|;
    assert p[..|dir|] == dir;
    assert TrimSlashes(dir) == dir;
    assert p[|dir| + 1..] == name;
  }
}
