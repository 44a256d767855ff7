/** Attribute slugs in the order sort.Strings gives them, whatever order a map yields them in. */
module Slugs {
  predicate Le(a: string, b: string) {
    |a| == 0 || (|b| > 0 && (a[0] < b[0] || (a[0] == b[0] && Le(a[1..], b[1..]))))
  }

  lemma {:induction false} LeTotal(a: string, b: string)
    ensures Le(a, b) || Le(b, a)
  {
    if |a| > 0 && |b| > 0 { LeTotal(a[1..], b[1..]); }
  }

  lemma {:induction false} LeTransitive(a: string, b: string, c: string)
    requires Le(a, b) && Le(b, c)
    ensures Le(a, c)
  {
    if |a| > 0 && a[0] == b[0] == c[0] { LeTransitive(a[1..], b[1..], c[1..]); }
  }

  lemma {:induction false} LeAntisymmetric(a: string, b: string)
    requires Le(a, b) && Le(b, a)
    ensures a == b
  {
    if |a| > 0 {
      LeAntisymmetric(a[1..], b[1..]);
      assert a == [a[0]] + a[1..] && b == [b[0]] + b[1..];
    }
  }

  /** After a common prefix the smaller character comes first, and a prefix comes before what extends it. */
  lemma {:induction false} LeDecides(p: string, x: char, s: string, y: char, t: string)
    ensures x < y ==> Le(p + [x] + s, p + [y] + t) && !Le(p + [y] + t, p + [x] + s)
    ensures Le(p, p + [x] + s) && !Le(p + [x] + s, p)
  {
    if |p| > 0 {
      LeDecides(p[1..], x, s, y, t);
      assert (p + [x] + s)[1..] == p[1..] + [x] + s && (p + [y] + t)[1..] == p[1..] + [y] + t;
    }
  }

  predicate Ascending(s: seq<string>) {
    forall i, j :: 0 <= i < j < |s| ==> Le(s[i], s[j])
  }

  function Inserted(x: string, s: seq<string>): seq<string> {
    if |s| == 0 then [x] else if Le(x, s[0]) then [x] + s else [s[0]] + Inserted(x, s[1..])
  }

  function Sorted(s: seq<string>): seq<string> {
    if |s| == 0 then [] else Inserted(s[0], Sorted(s[1..]))
  }

  lemma {:induction false} InsertedAdds(x: string, s: seq<string>)
    ensures multiset(Inserted(x, s)) == multiset(s) + multiset{x}
  {
    if |s| > 0 && !Le(x, s[0]) {
      assert s == [s[0]] + s[1..];
      InsertedAdds(x, s[1..]);
    }
  }

  lemma {:induction false} InsertedSorts(x: string, s: seq<string>)
    requires Ascending(s)
    ensures Ascending(Inserted(x, s))
  {
    if |s| > 0 {
      if Le(x, s[0]) {
        forall j | 0 <= j < |s| ensures Le(x, s[j]) {
          if j > 0 { LeTransitive(x, s[0], s[j]); }
        }
      } else {
        LeTotal(x, s[0]);
        InsertedSorts(x, s[1..]);
        InsertedAdds(x, s[1..]);
        var r := Inserted(x, s[1..]);
        forall j | 0 <= j < |r| ensures Le(s[0], r[j]) {
          assert r[j] in multiset(r);
          assert r[j] == x || r[j] in s[1..];
        }
      }
    }
  }

  lemma {:induction false} SortedSorts(s: seq<string>)
    ensures multiset(Sorted(s)) == multiset(s) && Ascending(Sorted(s))
  {
    if |s| > 0 {
      SortedSorts(s[1..]);
      InsertedSorts(s[0], Sorted(s[1..]));
      InsertedAdds(s[0], Sorted(s[1..]));
      assert s == [s[0]] + s[1..];
    }
  }

  lemma {:induction false} WithoutHead(s: seq<string>)
    requires |s| > 0
    ensures s == [s[0]] + s[1..] && multiset(s[1..]) == multiset(s) - multiset{s[0]}
  {
    assert s == [s[0]] + s[1..];
  }

  lemma {:induction false} AscendingUnique(a: seq<string>, b: seq<string>)
    requires Ascending(a) && Ascending(b) && multiset(a) == multiset(b)
    ensures a == b
  {
    assert |multiset(a)| == |a| && |multiset(b)| == |b|;
    if |a| > 0 {
      SameHead(a, b);
      WithoutHead(a);
      WithoutHead(b);
      AscendingUnique(a[1..], b[1..]);
    }
  }

  lemma {:induction false} SameHead(a: seq<string>, b: seq<string>)
    requires Ascending(a) && Ascending(b) && multiset(a) == multiset(b) && |a| > 0 && |b| > 0
    ensures a[0] == b[0]
  {
    assert a[0] in multiset(b) && b[0] in multiset(a);
    var i :| 0 <= i < |b| && b[i] == a[0];
    var j :| 0 <= j < |a| && a[j] == b[0];
    if i != 0 && j != 0 { LeAntisymmetric(a[0], b[0]); }
  }

  // ---- map keys ----

  predicate Distinct(s: seq<string>) {
    forall i, j :: 0 <= i < j < |s| ==> s[i] != s[j]
  }

  /** `order` is one of the orders in which a range over the map may yield its keys. */
  ghost predicate Enumerates(order: seq<string>, keys: set<string>) {
    Distinct(order) && forall x :: x in order <==> x in keys
  }

  lemma {:induction false} DistinctCounts(s: seq<string>, x: string)
    requires Distinct(s)
    ensures multiset(s)[x] == if x in s then 1 else 0
  {
    if |s| > 0 {
      assert s == [s[0]] + s[1..];
      DistinctCounts(s[1..], x);
    }
  }

  /** Sorting makes the order a map yields its keys in irrelevant. */
  lemma {:induction false} SortedIgnoresMapOrder(o1: seq<string>, o2: seq<string>, keys: set<string>)
    requires Enumerates(o1, keys) && Enumerates(o2, keys)
    ensures Sorted(o1) == Sorted(o2)
  {
    forall x ensures multiset(o1)[x] == multiset(o2)[x] {
      DistinctCounts(o1, x);
      DistinctCounts(o2, x);
    }
    assert multiset(o1) == multiset(o2);
    SortedSorts(o1);
    SortedSorts(o2);
    AscendingUnique(Sorted(o1), Sorted(o2));
  }

  lemma {:induction false} SortedHasKeys(order: seq<string>, keys: set<string>, x: string)
    requires Enumerates(order, keys)
    ensures x in Sorted(order) <==> x in keys
  {
    SortedSorts(order);
    assert x in multiset(Sorted(order)) <==> x in multiset(order);
  }
}
