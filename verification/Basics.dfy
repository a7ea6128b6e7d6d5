/** Small shared vocabulary: results, bytes, powers, and dictionary order on text. */
module Basics {

  datatype Option<+T> = None | Some(value: T)

  datatype Result<+T, +E> = Ok(value: T) | Err(error: E)

  type byte = x: int | 0 <= x < 256

  function Min(a: int, b: int): int { if a <= b then a else b }

  function Max(a: int, b: int): int { if a >= b then a else b }

  function Pow2(n: nat): nat { if n == 0 then 1 else 2 * Pow2(n - 1) }

  lemma {:induction false} Pow2Monotone(m: nat, n: nat)
    requires m <= n
    ensures 1 <= Pow2(m) <= Pow2(n)
    decreases n
  {
    if n == 0 {
    } else if m == n {
      Pow2Monotone(m - 1, n - 1);
    } else {
      Pow2Monotone(m, n - 1);
    }
  }

  ghost predicate Distinct<T(!new)>(s: seq<T>) {
    forall i, j :: 0 <= i < j < |s| ==> s[i] != s[j]
  }

  ghost function Pick(ids: set<string>): (x: string)
    requires ids != {}
    ensures x in ids
  {
    var x :| x in ids; x
  }

  /** The sum of f over a finite set of keys. */
  ghost function Sum(f: map<string, nat>, ids: set<string>): nat
    requires ids <= f.Keys
    decreases |ids|
  {
    if ids == {} then 0 else f[Pick(ids)] + Sum(f, ids - {Pick(ids)})
  }

  lemma {:induction false} SumRemove(f: map<string, nat>, ids: set<string>, x: string)
    requires ids <= f.Keys && x in ids
    ensures Sum(f, ids) == f[x] + Sum(f, ids - {x})
    decreases |ids|
  {
    var k := Pick(ids);
    if k != x {
      SumRemove(f, ids - {k}, x);
      SumRemove(f, ids - {x}, k);
      assert (ids - {k}) - {x} == (ids - {x}) - {k};
    }
  }

  lemma {:induction false} SumAgrees(f: map<string, nat>, g: map<string, nat>, ids: set<string>)
    requires ids <= f.Keys && ids <= g.Keys && forall k :: k in ids ==> f[k] == g[k]
    ensures Sum(f, ids) == Sum(g, ids)
    decreases |ids|
  {
    if ids != {} { SumAgrees(f, g, ids - {Pick(ids)}); }
  }

  lemma {:induction false} SumBound(f: map<string, nat>, ids: set<string>, c: nat)
    requires ids <= f.Keys && forall k :: k in ids ==> f[k] <= c
    ensures Sum(f, ids) <= c * |ids|
    decreases |ids|
  {
    if ids != {} {
      var r := ids - {Pick(ids)};
      SumBound(f, r, c);
      assert c * (|r| + 1) == c * |r| + c;
    }
  }

  /** Array.prototype.join. */
  function Join<T>(parts: seq<seq<T>>, sep: seq<T>): seq<T> {
    if parts == [] then [] else if |parts| == 1 then parts[0] else parts[0] + sep + Join(parts[1..], sep)
  }

  ghost predicate SortedBy<T(!new)>(less: (T, T) -> bool, s: seq<T>) {
    forall i, j :: 0 <= i < j < |s| ==> less(s[i], s[j])
  }

  /** A strictly sorted sequence is determined by its members. */
  lemma {:induction false} SortedUnique<T(!new)>(less: (T, T) -> bool, a: seq<T>, b: seq<T>)
    requires forall x, y :: less(x, y) ==> !less(y, x)
    requires SortedBy(less, a) && SortedBy(less, b) && forall x :: x in a <==> x in b
    ensures a == b
    decreases |a|
  {
    if b != [] { assert b[0] in b; }
    if a != [] {
      assert a[0] in a && a[0] in b;
      assert b[0] in b && b[0] in a;
      assert a[0] == b[0];
      var x, s, t := a[0], a[1..], b[1..];
      assert a == [x] + s && b == [x] + t;
      assert forall i :: 0 <= i < |s| ==> less(x, s[i]);
      assert forall i :: 0 <= i < |t| ==> less(x, t[i]);
      assert x !in s && x !in t;
      forall y ensures y in s <==> y in t {
        assert y in a <==> y == x || y in s;
        assert y in b <==> y == x || y in t;
      }
      SortedUnique(less, s, t);
    }
  }

  /** The values f gives, in order, leaving out the elements it gives none for. */
  function FilterMap<A, B>(f: A -> Option<B>, s: seq<A>): seq<B> {
    if s == [] then [] else
    var n := |s| - 1;
    match f(s[n])
    case None => FilterMap(f, s[..n])
    case Some(b) => FilterMap(f, s[..n]) + [b]
  }

  lemma {:induction false} FilterMapConcat<A, B>(f: A -> Option<B>, s: seq<A>, t: seq<A>)
    ensures FilterMap(f, s + t) == FilterMap(f, s) + FilterMap(f, t)
    decreases |t|
  {
    if t == [] {
      assert s + t == s;
    } else {
      var n := |t| - 1;
      assert (s + t)[..|s| + n] == s + t[..n] && (s + t)[|s| + n] == t[n];
      FilterMapConcat(f, s, t[..n]);
    }
  }

  /** The concatenation of a sequence of sequences. */
  function Flatten<T>(parts: seq<seq<T>>): seq<T> {
    if parts == [] then [] else parts[0] + Flatten(parts[1..])
  }

  lemma {:induction false} FlattenSnoc<T>(parts: seq<seq<T>>, last: seq<T>)
    ensures Flatten(parts + [last]) == Flatten(parts) + last
  {
    if parts == [] {
      assert parts + [last] == [last];
      assert Flatten([last]) == last + Flatten([last][1..]);
    } else {
      FlattenSnoc(parts[1..], last);
      assert (parts + [last])[1..] == parts[1..] + [last];
    }
  }
}

/** Dictionary order on code-unit sequences, as a BINARY collation or a
    default string sort compares them. */
module TextOrder {

  predicate LexLess(a: seq<int>, b: seq<int>)
    decreases |a|
  {
    if b == [] then false
    else if a == [] then true
    else a[0] < b[0] || (a[0] == b[0] && LexLess(a[1..], b[1..]))
  }

  function Codes(s: string): (r: seq<int>)
    ensures |r| == |s|
  {
    seq(|s|, i requires 0 <= i < |s| => s[i] as int)
  }

  predicate TextLess(a: string, b: string) { LexLess(Codes(a), Codes(b)) }

  lemma {:induction false} LexIrreflexive(a: seq<int>)
    ensures !LexLess(a, a)
    decreases |a|
  {
    if a == [] {
    } else {
      LexIrreflexive(a[1..]);
    }
  }

  lemma {:induction false} LexTotal(a: seq<int>, b: seq<int>)
    ensures LexLess(a, b) || LexLess(b, a) || a == b
    decreases |a|
  {
    if a != [] && b != [] && a[0] == b[0] {
      LexTotal(a[1..], b[1..]);
      assert a == [a[0]] + a[1..] && b == [b[0]] + b[1..];
    }
  }

  lemma {:induction false} LexTransitive(a: seq<int>, b: seq<int>, c: seq<int>)
    requires LexLess(a, b) && LexLess(b, c)
    ensures LexLess(a, c)
    decreases |a|
  {
    if a != [] && a[0] == b[0] && b[0] == c[0] {
      LexTransitive(a[1..], b[1..], c[1..]);
    }
  }

  lemma LexAsymmetric(a: seq<int>, b: seq<int>)
    requires LexLess(a, b)
    ensures !LexLess(b, a)
  {
    if LexLess(b, a) {
      LexTransitive(a, b, a);
      LexIrreflexive(a);
    }
  }

  /** Comparing a+x with b+y where a and b have the same length. */
  lemma {:induction false} LexConcat(a: seq<int>, x: seq<int>, b: seq<int>, y: seq<int>)
    requires |a| == |b|
    ensures LexLess(a + x, b + y) <==> LexLess(a, b) || (a == b && LexLess(x, y))
    decreases |a|
  {
    if a == [] {
      assert a + x == x && b + y == y;
    } else {
      assert (a + x)[1..] == a[1..] + x && (b + y)[1..] == b[1..] + y;
      LexConcat(a[1..], x, b[1..], y);
      assert a == [a[0]] + a[1..] && b == [b[0]] + b[1..];
    }
  }

  lemma CodesConcat(a: string, b: string)
    ensures Codes(a + b) == Codes(a) + Codes(b)
  {
  }

  lemma CodesInjective(a: string, b: string)
    requires Codes(a) == Codes(b)
    ensures a == b
  {
    assert forall i :: 0 <= i < |a| ==> a[i] as int == Codes(a)[i];
    assert forall i :: 0 <= i < |b| ==> b[i] as int == Codes(b)[i];
  }

  lemma OneLess(x: int, y: int)
    ensures LexLess([x], [y]) <==> x < y
  {
    assert [x][1..] == [] && [y][1..] == [];
    assert !LexLess([], []);
  }

  /** Comparing two concatenations of texts of equal lengths. */
  lemma ConcatOrder(a: string, x: string, b: string, y: string)
    requires |a| == |b|
    ensures TextLess(a + x, b + y) <==> TextLess(a, b) || (a == b && TextLess(x, y))
    ensures a + x == b + y <==> a == b && x == y
  {
    CodesConcat(a, x);
    CodesConcat(b, y);
    LexConcat(Codes(a), Codes(x), Codes(b), Codes(y));
    if Codes(a) == Codes(b) { CodesInjective(a, b); }
    if a + x == b + y {
      assert (a + x)[..|a|] == a && (b + y)[..|b|] == b;
      assert (a + x)[|a|..] == x && (b + y)[|b|..] == y;
    }
  }

  lemma OneCharLess(c: char, d: char)
    ensures TextLess([c], [d]) <==> c as int < d as int
  {
    assert Codes([c]) == [c as int] && Codes([d]) == [d as int];
    OneLess(c as int, d as int);
  }

  /** Every non-empty finite set of keys has a member no other key's text precedes. */
  lemma {:induction false} MinimalExists(keys: set<string>, text: map<string, string>) returns (m: string)
    requires keys != {} && keys <= text.Keys
    ensures m in keys && forall k :: k in keys ==> !TextLess(text[k], text[m])
    decreases |keys|
  {
    var k :| k in keys;
    var rest := keys - {k};
    if rest == {} {
      LexIrreflexive(Codes(text[k]));
      assert keys == {k};
      return k;
    }
    var m' := MinimalExists(rest, text);
    if TextLess(text[k], text[m']) {
      LexIrreflexive(Codes(text[k]));
      forall j | j in keys ensures !TextLess(text[j], text[k]) {
        if j != k && TextLess(text[j], text[k]) {
          LexTransitive(Codes(text[j]), Codes(text[k]), Codes(text[m']));
        }
      }
      return k;
    }
    return m';
  }
}
