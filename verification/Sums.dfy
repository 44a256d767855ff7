/** Sums over sequences: order does not matter, and grouping by a key loses nothing. */
module Sums {

  function SumBy<T>(s: seq<T>, f: T -> int): int {
    if |s| == 0 then 0 else SumBy(s[..|s| - 1], f) + f(s[|s| - 1])
  }

  /** f on the elements with key k, 0 on the others. */
  function Where<T>(key: T -> int, k: int, f: T -> int): T -> int {
    x => if key(x) == k then f(x) else 0
  }

  /** The sum of each group, as a function of the key. */
  function GroupSum<T>(s: seq<T>, key: T -> int, f: T -> int): int -> int {
    k => SumBy(s, Where(key, k, f))
  }

  predicate NoDuplicates<T(==)>(s: seq<T>) {
    forall i, j :: 0 <= i < j < |s| ==> s[i] != s[j]
  }

  lemma {:induction false} SumByAppend<T>(s: seq<T>, x: T, f: T -> int)
    ensures SumBy(s + [x], f) == SumBy(s, f) + f(x)
  { }

  lemma {:induction false} SumByConcat<T>(s: seq<T>, t: seq<T>, f: T -> int)
    ensures SumBy(s + t, f) == SumBy(s, f) + SumBy(t, f)
  {
    if |t| == 0 {
      assert s + t == s;
    } else {
      assert (s + t)[..|s + t| - 1] == s + t[..|t| - 1];
      SumByConcat(s, t[..|t| - 1], f);
    }
  }

  lemma {:induction false} SumByUpdate<T>(s: seq<T>, i: nat, x: T, f: T -> int)
    requires i < |s|
    ensures SumBy(s[i := x], f) == SumBy(s, f) - f(s[i]) + f(x)
  {
    assert s == s[..i] + [s[i]] + s[i + 1..];
    assert s[i := x] == s[..i] + [x] + s[i + 1..];
    SumByAppend(s[..i], s[i], f);
    SumByAppend(s[..i], x, f);
    SumByConcat(s[..i] + [s[i]], s[i + 1..], f);
    SumByConcat(s[..i] + [x], s[i + 1..], f);
  }

  lemma {:induction false} SumByEqual<T>(s: seq<T>, f: T -> int, g: T -> int)
    requires forall i :: 0 <= i < |s| ==> f(s[i]) == g(s[i])
    ensures SumBy(s, f) == SumBy(s, g)
  {
    if |s| > 0 { SumByEqual(s[..|s| - 1], f, g); }
  }

  lemma {:induction false} SumByMonotone<T>(s: seq<T>, f: T -> int, g: T -> int)
    requires forall i :: 0 <= i < |s| ==> 0 <= f(s[i]) <= g(s[i])
    ensures 0 <= SumBy(s, f) <= SumBy(s, g)
  {
    if |s| > 0 { SumByMonotone(s[..|s| - 1], f, g); }
  }

  lemma {:induction false} SumByPointwise<T>(s: seq<T>, t: seq<T>, f: T -> int)
    requires |s| == |t| && forall i :: 0 <= i < |s| ==> f(s[i]) == f(t[i])
    ensures SumBy(s, f) == SumBy(t, f)
  {
    if |s| > 0 { SumByPointwise(s[..|s| - 1], t[..|t| - 1], f); }
  }

  lemma {:induction false} SumByAdds<T>(s: seq<T>, f: T -> int, g: T -> int, h: T -> int)
    requires forall i :: 0 <= i < |s| ==> h(s[i]) == f(s[i]) + g(s[i])
    ensures SumBy(s, h) == SumBy(s, f) + SumBy(s, g)
  {
    if |s| > 0 { SumByAdds(s[..|s| - 1], f, g, h); }
  }

  /** A sum does not depend on the order of its elements. */
  lemma {:induction false} SumByPermutation<T>(s: seq<T>, t: seq<T>, f: T -> int)
    requires multiset(s) == multiset(t)
    ensures SumBy(s, f) == SumBy(t, f)
  {
    if |s| == 0 {
      assert |multiset(t)| == 0;
    } else {
      var x := s[|s| - 1];
      assert x in multiset(s);
      var i :| 0 <= i < |t| && t[i] == x;
      var rest := t[..i] + t[i + 1..];
      assert s == s[..|s| - 1] + [x];
      assert t == t[..i] + [x] + t[i + 1..];
      assert multiset(s) == multiset(s[..|s| - 1]) + multiset{x};
      assert multiset(t) == multiset(t[..i]) + multiset{x} + multiset(t[i + 1..]);
      assert multiset(rest) == multiset(t[..i]) + multiset(t[i + 1..]);
      assert multiset(s[..|s| - 1]) == multiset(s) - multiset{x} == multiset(rest);
      SumByPermutation(s[..|s| - 1], rest, f);
      SumByConcat(t[..i], t[i + 1..], f);
      SumByAppend(t[..i], x, f);
      SumByConcat(t[..i] + [x], t[i + 1..], f);
    }
  }

  lemma {:induction false} SumByZero<T>(s: seq<T>, f: T -> int)
    requires forall i :: 0 <= i < |s| ==> f(s[i]) == 0
    ensures SumBy(s, f) == 0
  {
    if |s| > 0 { SumByZero(s[..|s| - 1], f); }
  }

  /** A value present once among distinct keys is picked up once. */
  lemma {:induction false} SumOverKeys(keys: seq<int>, k: int, v: int)
    requires NoDuplicates(keys)
    ensures SumBy(keys, q => if q == k then v else 0) == if k in keys then v else 0
  {
    if |keys| > 0 {
      var front := keys[..|keys| - 1];
      SumOverKeys(front, k, v);
      assert keys == front + [keys[|keys| - 1]];
    }
  }

  /** Summing the groups gives the whole, whatever order the keys are visited in. */
  lemma {:induction false} GroupsSumToWhole<T>(s: seq<T>, keys: seq<int>, key: T -> int, f: T -> int)
    requires NoDuplicates(keys)
    requires forall i :: 0 <= i < |s| ==> key(s[i]) in keys
    ensures SumBy(keys, GroupSum(s, key, f)) == SumBy(s, f)
  {
    var whole := GroupSum(s, key, f);
    if |s| == 0 {
      SumByZero(keys, whole);
    } else {
      var front, x := s[..|s| - 1], s[|s| - 1];
      var part := GroupSum(front, key, f);
      var one := q => if q == key(x) then f(x) else 0;
      GroupsSumToWhole(front, keys, key, f);
      SumOverKeys(keys, key(x), f(x));
      SumByAdds(keys, part, one, whole);
    }
  }
}
