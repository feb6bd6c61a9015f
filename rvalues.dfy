/**
 * The Ruby values that the build scripts keep in lists: strings, nil,
 * true/false and (nested) Arrays.  A Target's dependency list, the
 * Makefile's list of created directories and a Buildable's flag lists can
 * all hold a nested Array after `push(other_list)`, so rendering follows
 * Array#join, which joins nested Arrays recursively with the same separator.
 */
module RubyValues {
  import opened Strings

  datatype RValue = Nil | Bool(b: bool) | Str(s: string) | List(items: seq<RValue>)

  /** Ruby truthiness: everything except nil and false. */
  predicate Truthy(v: RValue)
  {
    !(v.Nil? || v == Bool(false))
  }

  /** `v.class.to_s`, as an error message names it. */
  function ClassName(v: RValue): string
  {
    match v
    case Nil => "NilClass"
    case Bool(b) => if b then "TrueClass" else "FalseClass"
    case Str(_) => "String"
    case List(_) => "Array"
  }

  /** How `join` renders one element. */
  function Render(v: RValue, sep: string): string
    decreases v, 1
  {
    match v
    case Nil => ""
    case Bool(b) => if b then "true" else "false"
    case Str(s) => s
    case List(items) => JoinValues(items, sep)
  }

  /** `xs.join(sep)` on a list that may hold nested lists and nil. */
  function JoinValues(xs: seq<RValue>, sep: string): string
    decreases xs, 0
  {
    if |xs| == 0 then ""
    else if |xs| == 1 then Render(xs[0], sep)
    else Render(xs[0], sep) + sep + JoinValues(xs[1..], sep)
  }

  /** Joining a list of two or more values renders the first, then the separator, then the rest. */
  lemma JoinValuesCons(x: RValue, xs: seq<RValue>, sep: string)
    requires xs != []
    ensures JoinValues([x] + xs, sep) == Render(x, sep) + sep + JoinValues(xs, sep)
  {
    assert ([x] + xs)[1..] == xs;
  }

  /** A list of strings as Ruby values. */
  function Strs(xs: seq<string>): (r: seq<RValue>)
    ensures |r| == |xs|
    ensures forall i :: 0 <= i < |xs| ==> r[i] == Str(xs[i])
  {
    seq(|xs|, i requires 0 <= i < |xs| => Str(xs[i]))
  }

  /** Joining a list of plain strings is Array#join on strings. */
  lemma {:induction false} JoinOfStrs(xs: seq<string>, sep: string)
    ensures JoinValues(Strs(xs), sep) == Join(xs, sep)
    decreases |xs|
  {
    if |xs| > 1 {
      assert Strs(xs)[1..] == Strs(xs[1..]);
      JoinOfStrs(xs[1..], sep);
    }
  }

  /** `xs.flatten`: the non-Array leaves, in order. */
  function Flatten(xs: seq<RValue>): (r: seq<RValue>)
    decreases xs
  {
    if xs == [] then []
    else
      (match xs[0]
       case List(items) => Flatten(items)
       case _ => [xs[0]])
      + Flatten(xs[1..])
  }

  /** The leaves of `xs` rendered as text: the words `xs.flatten.join(' ')` is built from. */
  function Texts(xs: seq<RValue>): (r: seq<string>)
    ensures |r| == |Flatten(xs)|
    ensures forall i :: 0 <= i < |r| ==> r[i] == Render(Flatten(xs)[i], " ")
  {
    var f := Flatten(xs);
    seq(|f|, i requires 0 <= i < |f| => Render(f[i], " "))
  }

  lemma {:induction false} FlattenOfStrs(xs: seq<string>)
    ensures Flatten(Strs(xs)) == Strs(xs)
    decreases |xs|
  {
    if xs != [] {
      assert Strs(xs)[1..] == Strs(xs[1..]);
      FlattenOfStrs(xs[1..]);
      assert Strs(xs) == [Str(xs[0])] + Strs(xs[1..]);
    }
  }

  /** Flattening a list of strings gives back those strings. */
  lemma TextsOfStrs(xs: seq<string>)
    ensures Texts(Strs(xs)) == xs
  {
    FlattenOfStrs(xs);
  }

  /** What one element contributes to a flattened list. */
  function FlatHead(x: RValue): seq<RValue>
  {
    if x.List? then Flatten(x.items) else [x]
  }

  /** Flattening a list that starts with `x`: `x`'s own flattening, then the rest's. */
  lemma FlattenCons(x: RValue, xs: seq<RValue>)
    ensures Flatten([x] + xs) == FlatHead(x) + Flatten(xs)
  {
    assert ([x] + xs)[1..] == xs;
  }

  /** Flattening distributes over concatenation. */
  lemma {:induction false} FlattenAppend(xs: seq<RValue>, ys: seq<RValue>)
    ensures Flatten(xs + ys) == Flatten(xs) + Flatten(ys)
    decreases |xs|
  {
    if xs == [] {
      assert xs + ys == ys;
    } else {
      FlattenAppend(xs[1..], ys);
      assert xs == [xs[0]] + xs[1..];
      FlattenAppendStep(xs[0], xs[1..], ys);
    }
  }

  /** The inductive step of `FlattenAppend`. */
  lemma FlattenAppendStep(x: RValue, rest: seq<RValue>, ys: seq<RValue>)
    requires Flatten(rest + ys) == Flatten(rest) + Flatten(ys)
    ensures Flatten([x] + rest + ys) == Flatten([x] + rest) + Flatten(ys)
  {
    assert [x] + rest + ys == [x] + (rest + ys);
    FlattenCons(x, rest + ys);
    FlattenCons(x, rest);
  }

  lemma StrsAppend(xs: seq<string>, ys: seq<string>)
    ensures Strs(xs + ys) == Strs(xs) + Strs(ys)
  {
  }

  // ---------------------------------------------------------------------
  // Hash
  // ---------------------------------------------------------------------

  /** A Ruby Hash with String keys, as its entries in insertion order. */
  type Hash = seq<(string, RValue)>

  function HashKeys(h: Hash): (r: seq<string>)
    ensures |r| == |h|
  {
    if h == [] then [] else [h[0].0] + HashKeys(h[1..])
  }

  /** `h[k]`, or None when `k` is missing. */
  function HashGet(h: Hash, k: string): Option<RValue>
  {
    if h == [] then None
    else if h[0].0 == k then Some(h[0].1)
    else HashGet(h[1..], k)
  }

  /** `h[k] = v`: the value is replaced in place, or a new entry goes at the end. */
  function HashPut(h: Hash, k: string, v: RValue): Hash
  {
    if h == [] then [(k, v)]
    else if h[0].0 == k then [(k, v)] + h[1..]
    else [h[0]] + HashPut(h[1..], k, v)
  }

  /** A key is found exactly when it is among the keys. */
  lemma {:induction false} HashGetFound(h: Hash, k: string)
    ensures HashGet(h, k).None? <==> k !in HashKeys(h)
  {
    if h != [] {
      HashGetFound(h[1..], k);
    }
  }

  /** After `h[k] = v`, `k` maps to `v` and every other key to what it mapped to before. */
  lemma {:induction false} HashPutGet(h: Hash, k: string, v: RValue, k': string)
    ensures HashGet(HashPut(h, k, v), k') == if k' == k then Some(v) else HashGet(h, k')
  {
    if h != [] && h[0].0 != k {
      HashPutGet(h[1..], k, v, k');
      assert HashPut(h, k, v)[1..] == HashPut(h[1..], k, v);
    }
  }

  /** A present key keeps its place; a missing key is appended at the end. */
  lemma {:induction false} HashPutPlace(h: Hash, k: string, v: RValue)
    ensures k in HashKeys(h) ==> HashKeys(HashPut(h, k, v)) == HashKeys(h)
    ensures k !in HashKeys(h) ==> HashPut(h, k, v) == h + [(k, v)]
  {
    if h != [] && h[0].0 != k {
      HashPutPlace(h[1..], k, v);
      var r := HashPut(h, k, v);
      assert r[0] == h[0] && r[1..] == HashPut(h[1..], k, v);
      if k !in HashKeys(h) {
        assert h == [h[0]] + h[1..];
      }
    } else if h != [] {
      assert HashPut(h, k, v)[1..] == h[1..];
    }
  }

  /** The keys of `h + [(k, v)]` are the keys of `h`, then `k`. */
  lemma {:induction false} HashKeysAppend(h: Hash, k: string, v: RValue)
    ensures HashKeys(h + [(k, v)]) == HashKeys(h) + [k]
  {
    if h != [] {
      assert (h + [(k, v)])[1..] == h[1..] + [(k, v)];
      HashKeysAppend(h[1..], k, v);
    } else {
      assert HashKeys([(k, v)]) == [k] + HashKeys([]);
    }
  }

  /** Putting a key into a hash adds it to the keys (at the end if new) and keeps them distinct. */
  lemma HashPutKeys(h: Hash, k: string, v: RValue)
    requires NoDuplicates(HashKeys(h))
    ensures forall x :: x in HashKeys(HashPut(h, k, v)) <==> x in HashKeys(h) || x == k
    ensures NoDuplicates(HashKeys(HashPut(h, k, v)))
  {
    HashPutPlace(h, k, v);
    if k !in HashKeys(h) {
      HashKeysAppend(h, k, v);
    }
  }

  /** `h.merge(src)`: the keys of `src` are stored one after the other, each replacing an existing entry in place or appended. */
  function HashMerge(buf: Hash, src: Hash): Hash
    decreases |src|
  {
    if src == [] then buf else HashMerge(HashPut(buf, src[0].0, src[0].1), src[1..])
  }

  /** After a merge, a key of `src` reads its value there; any other key keeps its old value. */
  lemma {:induction false} HashMergeGet(buf: Hash, src: Hash, k: string)
    requires NoDuplicates(HashKeys(src))
    ensures HashGet(HashMerge(buf, src), k) == if k in HashKeys(src) then HashGet(src, k) else HashGet(buf, k)
    decreases |src|
  {
    if src != [] {
      var rest := src[1..];
      assert HashKeys(src) == [src[0].0] + HashKeys(rest);
      assert NoDuplicates(HashKeys(rest)) by {
        forall i, j | 0 <= i < j < |HashKeys(rest)| ensures HashKeys(rest)[i] != HashKeys(rest)[j] {
          assert HashKeys(rest)[i] == HashKeys(src)[i + 1] && HashKeys(rest)[j] == HashKeys(src)[j + 1];
        }
      }
      assert src[0].0 !in HashKeys(rest) by {
        forall j | 0 <= j < |HashKeys(rest)| ensures HashKeys(rest)[j] != src[0].0 {
          assert HashKeys(rest)[j] == HashKeys(src)[j + 1] && HashKeys(src)[0] == src[0].0;
        }
      }
      HashMergeGet(HashPut(buf, src[0].0, src[0].1), rest, k);
      HashPutGet(buf, src[0].0, src[0].1, k);
    }
  }

  /** `h.delete(k)`: the entry for `k` is removed; the others keep their order. */
  function HashDelete(h: Hash, k: string): Hash
  {
    if h == [] then []
    else (if h[0].0 == k then [] else [h[0]]) + HashDelete(h[1..], k)
  }

  /** After `h.delete(k)`, `k` is no longer a key and every other key reads as before. */
  lemma {:induction false} HashDeleteGet(h: Hash, k: string, k': string)
    ensures HashGet(HashDelete(h, k), k') == if k' == k then None else HashGet(h, k')
  {
    if h != [] {
      HashDeleteGet(h[1..], k, k');
      if h[0].0 != k {
        assert HashDelete(h, k) == [h[0]] + HashDelete(h[1..], k);
      } else {
        assert HashDelete(h, k) == HashDelete(h[1..], k);
      }
    }
  }
}
