/**
 * How a POSIX shell splits a generated command line into arguments, as far
 * as the Makefile rules need it: blanks separate words and a single-quoted
 * segment is taken literally (blanks included).  Double quotes, backslashes
 * and expansions are treated as ordinary characters; every token the rules
 * are built from avoids them.
 */
module Shell {
  import opened Strings

  predicate Blank(c: char)
  {
    c == ' ' || c == '\t' || c == '\n'
  }

  /** A word the shell passes through unchanged: non-empty, no blank, no quote. */
  predicate Plain(w: string)
  {
    |w| > 0 && forall i :: 0 <= i < |w| ==> !Blank(w[i]) && w[i] != '\''
  }

  predicate AllPlain(ws: seq<string>)
  {
    forall i :: 0 <= i < |ws| ==> Plain(ws[i])
  }

  /** `'c'` where `c` holds no quote: the shell passes `c` as one argument. */
  predicate Quoted(t: string)
  {
    |t| >= 2 && t[0] == '\'' && t[|t| - 1] == '\''
    && forall i :: 0 < i < |t| - 1 ==> t[i] != '\''
  }

  predicate Token(t: string)
  {
    Plain(t) || Quoted(t)
  }

  predicate AllTokens(ts: seq<string>)
  {
    forall i :: 0 <= i < |ts| ==> Token(ts[i])
  }

  function Quote(c: string): (t: string)
    requires forall i :: 0 <= i < |c| ==> c[i] != '\''
    ensures Quoted(t)
  {
    "'" + c + "'"
  }

  /** The argument a token stands for. */
  function ArgOf(t: string): string
  {
    if Quoted(t) then t[1..|t| - 1] else t
  }

  function Args(ts: seq<string>): seq<string>
  {
    if ts == [] then [] else [ArgOf(ts[0])] + Args(ts[1..])
  }

  function Pending(cur: Option<string>): string
  {
    if cur.Some? then cur.value else ""
  }

  function Flush(cur: Option<string>): seq<string>
  {
    if cur.Some? then [cur.value] else []
  }

  /** Index of the first quote in `s`, or |s| when there is none. */
  function QuoteEnd(s: string): (q: nat)
    ensures q <= |s|
    ensures forall i :: 0 <= i < q ==> s[i] != '\''
    ensures q < |s| ==> s[q] == '\''
  {
    if s == [] || s[0] == '\'' then 0 else 1 + QuoteEnd(s[1..])
  }

  /** Word splitting with a word under construction `cur`. */
  function Lex(s: string, cur: Option<string>): seq<string>
    decreases |s|
  {
    if s == [] then Flush(cur)
    else if Blank(s[0]) then Flush(cur) + Lex(s[1..], None)
    else if s[0] == '\'' then
      var q := QuoteEnd(s[1..]);
      var w := Pending(cur) + s[1..][..q];
      if q == |s| - 1 then [w] else Lex(s[q + 2..], Some(w))
    else Lex(s[1..], Some(Pending(cur) + [s[0]]))
  }

  /** The argument vector the shell builds from a command line. */
  function ShellWords(s: string): seq<string>
  {
    Lex(s, None)
  }

  lemma {:induction false} LexPlain(w: string, rest: string, cur: Option<string>)
    requires Plain(w)
    ensures Lex(w + rest, cur) == Lex(rest, Some(Pending(cur) + w))
    decreases |w|
  {
    var s := w + rest;
    assert s[0] == w[0];
    assert s[1..] == w[1..] + rest;
    if |w| == 1 {
      assert w[1..] + rest == rest;
      assert [w[0]] == w;
    } else {
      LexPlain(w[1..], rest, Some(Pending(cur) + [w[0]]));
      assert Pending(cur) + [w[0]] + w[1..] == Pending(cur) + w;
    }
  }

  lemma {:induction false} LexQuoted(t: string, rest: string, cur: Option<string>)
    requires Quoted(t)
    requires rest == [] || Blank(rest[0])
    ensures Lex(t + rest, cur) == Lex(rest, Some(Pending(cur) + ArgOf(t)))
  {
    var s := t + rest;
    var inner := t[1..|t| - 1];
    assert s[1..] == inner + "'" + rest;
    var q := QuoteEnd(s[1..]);
    assert (inner + "'" + rest)[|inner|] == '\'';
    assert q == |inner|;
    assert s[1..][..q] == inner;
    assert q < |s| - 1;
    assert s[q + 2..] == rest;
  }

  lemma {:induction false} LexToken(t: string, rest: string, cur: Option<string>)
    requires Token(t)
    requires rest == [] || Blank(rest[0])
    ensures Lex(t + rest, cur) == Lex(rest, Some(Pending(cur) + ArgOf(t)))
  {
    if Quoted(t) {
      LexQuoted(t, rest, cur);
    } else {
      LexPlain(t, rest, cur);
    }
  }

  /** A space-joined list of tokens is split back into their arguments. */
  lemma {:induction false} ShellWordsOfSpaced(ts: seq<string>)
    requires AllTokens(ts)
    ensures ShellWords(Spaced(ts)) == Args(ts)
    decreases |ts|
  {
    if |ts| == 0 {
    } else if |ts| == 1 {
      LexToken(ts[0], "", None);
      assert ts[0] + "" == ts[0];
      assert ts[1..] == [];
      assert Pending(None) + ArgOf(ts[0]) == ArgOf(ts[0]);
    } else {
      var rest := " " + Spaced(ts[1..]);
      assert Spaced(ts) == ts[0] + rest;
      LexToken(ts[0], rest, None);
      assert Pending(None) + ArgOf(ts[0]) == ArgOf(ts[0]);
      assert rest[1..] == Spaced(ts[1..]);
      ShellWordsOfSpaced(ts[1..]);
    }
  }

  lemma {:induction false} ArgsOfPlain(ws: seq<string>)
    requires AllPlain(ws)
    ensures Args(ws) == ws
    decreases |ws|
  {
    if ws != [] {
      ArgsOfPlain(ws[1..]);
      assert ws == [ws[0]] + ws[1..];
    }
  }

  lemma {:induction false} ArgsAppend(a: seq<string>, b: seq<string>)
    ensures Args(a + b) == Args(a) + Args(b)
    decreases |a|
  {
    if a != [] {
      assert (a + b)[0] == a[0];
      assert (a + b)[1..] == a[1..] + b;
      ArgsAppend(a[1..], b);
    } else {
      assert a + b == b;
    }
  }

  /** Plain words joined by spaces reach the command as those same words. */
  lemma PlainWordsSurvive(ws: seq<string>)
    requires AllPlain(ws)
    ensures ShellWords(Spaced(ws)) == ws
  {
    ShellWordsOfSpaced(ws);
    ArgsOfPlain(ws);
  }

  /** `a b` split into arguments is the arguments of `a` followed by those of `b`. */
  lemma SpacedPrefix(fixed: seq<string>, user: seq<string>)
    requires AllPlain(fixed) && AllPlain(user) && fixed != [] && user != []
    ensures ShellWords(Spaced(fixed) + " " + Spaced(user)) == fixed + user
  {
    JoinConcat(fixed, user, " ");
    assert AllPlain(fixed + user);
    PlainWordsSurvive(fixed + user);
  }
}
