/**
 The listing query builder (internal/catalog/repository.go:378-515, 541-615).  A query
 is its WHERE clauses, ORDER BY, LIMIT and OFFSET with numbered placeholders, and the
 argument list they refer to; its meaning is which rows it selects and in what order.
 */
module QueryBuilder {
  import opened Options

  datatype Value = Num(n: int) | Text(t: string) | Texts(ts: seq<string>) | Nums(ns: seq<int>)

  /** One row of the product select; `ratingTenths` is NULL for an unrated product. */
  datatype Row = Row(id: int, active: bool, locale: string, category: int, price: int, brand: string,
                     ratingTenths: Option<int>, freeShipping: bool, stocked: bool, dropped: bool,
                     attrs: set<(string, string)>, createdAt: int, commissionBps: int)

  datatype ProductFilter = ProductFilter(
    category: Option<int>, minPrice: Option<int>, maxPrice: Option<int>, brands: seq<string>,
    minRating: Option<int>, freeShipping: Option<bool>, inStock: Option<bool>, priceDropped: Option<bool>,
    sort: string, attrs: map<string, seq<string>>, popularIds: seq<int>)

  // ---- what a filter asks for ----

  predicate MatchesAttr(attrs: map<string, seq<string>>, slug: string, row: Row)
    requires slug in attrs
  {
    |attrs[slug]| > 0 ==> exists i :: 0 <= i < |attrs[slug]| && (slug, attrs[slug][i]) in row.attrs
  }

  /** Every slug with values needs one of its values; flags constrain only when set and true. */
  predicate Matches(f: ProductFilter, row: Row) {
    && (f.category.Some? ==> row.category == f.category.value)
    && (f.minPrice.Some? ==> f.minPrice.value <= row.price)
    && (f.maxPrice.Some? ==> row.price <= f.maxPrice.value)
    && (|f.brands| > 0 ==> row.brand in f.brands)
    && (f.minRating.Some? ==> row.ratingTenths.Some? && 10 * f.minRating.value <= row.ratingTenths.value)
    && (f.freeShipping == Some(true) ==> row.freeShipping)
    && (f.inStock == Some(true) ==> row.stocked)
    && (f.priceDropped == Some(true) ==> row.dropped)
    && (forall slug :: slug in f.attrs ==> MatchesAttr(f.attrs, slug, row))
  }

  // ---- clauses and their meaning ----

  datatype Test =
    | CategoryIs | PriceAtLeast | PriceAtMost | BrandAny | RatingAtLeast
    | FreeShippingTrue | InStockExists | PriceDropExists | AttrExists

  /** A condition with the numbers of its placeholders, counted from 1. */
  datatype Clause = Clause(test: Test, params: seq<nat>)

  /** SQL truth of a condition once its placeholders stand for `values`. */
  predicate Holds(test: Test, values: seq<Value>, row: Row) {
    match test
    case CategoryIs => |values| == 1 && values[0] == Num(row.category)
    case PriceAtLeast => |values| == 1 && values[0].Num? && row.price >= values[0].n
    case PriceAtMost => |values| == 1 && values[0].Num? && row.price <= values[0].n
    case BrandAny => |values| == 1 && values[0].Texts? && row.brand in values[0].ts
    case RatingAtLeast =>
      |values| == 1 && values[0].Num? && row.ratingTenths.Some? && row.ratingTenths.value >= 10 * values[0].n
    case FreeShippingTrue => row.freeShipping
    case InStockExists => row.stocked
    case PriceDropExists => row.dropped
    case AttrExists =>
      && |values| == 2 && values[0].Text? && values[1].Texts?
      && exists i :: 0 <= i < |values[1].ts| && (values[0].t, values[1].ts[i]) in row.attrs
  }

  predicate InRange(params: seq<nat>, args: seq<Value>) {
    forall i :: 0 <= i < |params| ==> 1 <= params[i] <= |args|
  }

  function Bound(params: seq<nat>, args: seq<Value>): (vs: seq<Value>)
    requires InRange(params, args)
    ensures |vs| == |params| && forall i :: 0 <= i < |vs| ==> vs[i] == args[params[i] - 1]
  {
    if |params| == 0 then [] else [args[params[0] - 1]] + Bound(params[1..], args)
  }

  predicate Accepts(clauses: seq<Clause>, args: seq<Value>, row: Row) {
    forall i :: 0 <= i < |clauses| ==>
      InRange(clauses[i].params, args) && Holds(clauses[i].test, Bound(clauses[i].params, args), row)
  }

  // ---- what is appended: a condition with its values ----

  datatype Part = Part(test: Test, values: seq<Value>)

  predicate AllHold(parts: seq<Part>, row: Row) {
    forall i :: 0 <= i < |parts| ==> Holds(parts[i].test, parts[i].values, row)
  }

  function Numbers(n: nat, k: nat): (r: seq<nat>)
    ensures |r| == k && forall i :: 0 <= i < k ==> r[i] == n + i
  {
    if k == 0 then [] else Numbers(n, k - 1) + [n + k - 1]
  }

  /** The arguments of the parts, one part after the other. */
  function LaidArgs(parts: seq<Part>): seq<Value> {
    if |parts| == 0 then [] else LaidArgs(parts[..|parts| - 1]) + parts[|parts| - 1].values
  }

  /** The clauses of the parts, numbered from `n` in the order of those arguments. */
  function LaidClauses(parts: seq<Part>, n: nat): seq<Clause> {
    if |parts| == 0 then []
    else
      var front := parts[..|parts| - 1];
      var last := parts[|parts| - 1];
      LaidClauses(front, n) + [Clause(last.test, Numbers(n + |LaidArgs(front)|, |last.values|))]
  }

  /** A part's placeholders denote its own values, whatever stands before and after them. */
  lemma {:induction false} NumbersDenote(before: seq<Value>, values: seq<Value>, later: seq<Value>)
    ensures var params := Numbers(|before| + 1, |values|);
      InRange(params, before + values + later) && Bound(params, before + values + later) == values
  { }

  /** Appending one part to what is already built. */
  lemma {:induction false} OnePartMore(clauses: seq<Clause>, done: seq<Value>, p: Part, later: seq<Value>, row: Row)
    ensures var c := Clause(p.test, Numbers(|done| + 1, |p.values|));
      Accepts(clauses + [c], done + p.values + later, row) <==>
      Accepts(clauses, done + (p.values + later), row) && Holds(p.test, p.values, row)
  {
    NumbersDenote(done, p.values, later);
    assert done + p.values + later == done + (p.values + later);
    AcceptsAppend(clauses, Clause(p.test, Numbers(|done| + 1, |p.values|)), done + p.values + later, row);
  }

  lemma {:induction false} AllHoldSnoc(parts: seq<Part>, row: Row)
    requires |parts| > 0
    ensures AllHold(parts, row) <==>
      AllHold(parts[..|parts| - 1], row) && Holds(parts[|parts| - 1].test, parts[|parts| - 1].values, row)
  { }

  /** The numbered clauses accept exactly the rows the parts accept, whatever is appended to the arguments later. */
  lemma {:induction false} LaidMeaning(parts: seq<Part>, base: seq<Value>, later: seq<Value>, row: Row)
    ensures Accepts(LaidClauses(parts, |base| + 1), base + LaidArgs(parts) + later, row) <==> AllHold(parts, row)
    decreases |parts|
  {
    if |parts| > 0 {
      var front, last := parts[..|parts| - 1], parts[|parts| - 1];
      LaidMeaning(front, base, last.values + later, row);
      OnePartMore(LaidClauses(front, |base| + 1), base + LaidArgs(front), last, later, row);
      AllHoldSnoc(parts, row);
      assert base + LaidArgs(parts) == base + LaidArgs(front) + last.values;
    }
  }

  lemma {:induction false} AcceptsAppend(clauses: seq<Clause>, c: Clause, args: seq<Value>, row: Row)
    ensures Accepts(clauses + [c], args, row) <==>
      Accepts(clauses, args, row) && InRange(c.params, args) && Holds(c.test, Bound(c.params, args), row)
  {
    var all := clauses + [c];
    assert all[|clauses|] == c;
    if Accepts(all, args, row) {
      forall i | 0 <= i < |clauses|
        ensures InRange(clauses[i].params, args) && Holds(clauses[i].test, Bound(clauses[i].params, args), row)
      {
        assert clauses[i] == all[i];
      }
    }
  }

  lemma {:induction false} AllHoldAppend(a: seq<Part>, b: seq<Part>, row: Row)
    ensures AllHold(a + b, row) <==> AllHold(a, row) && AllHold(b, row)
  {
    if AllHold(a + b, row) {
      forall i | 0 <= i < |a| ensures Holds(a[i].test, a[i].values, row) { assert a[i] == (a + b)[i]; }
      forall i | 0 <= i < |b| ensures Holds(b[i].test, b[i].values, row) { assert b[i] == (a + b)[|a| + i]; }
    }
  }

  // ---- the parts of a filter ----

  function When(c: bool, p: Part): seq<Part> { if c then [p] else [] }

  function IfNum(test: Test, v: Option<int>): seq<Part> {
    if v.Some? then [Part(test, [Num(v.value)])] else []
  }

  function ColumnParts(f: ProductFilter): seq<Part> {
    IfNum(CategoryIs, f.category) + IfNum(PriceAtLeast, f.minPrice) + IfNum(PriceAtMost, f.maxPrice)
    + When(|f.brands| > 0, Part(BrandAny, [Texts(f.brands)])) + IfNum(RatingAtLeast, f.minRating)
  }

  function FlagParts(f: ProductFilter): seq<Part> {
    When(f.freeShipping == Some(true), Part(FreeShippingTrue, []))
    + When(f.inStock == Some(true), Part(InStockExists, []))
    + When(f.priceDropped == Some(true), Part(PriceDropExists, []))
  }

  function AttrPart(attrs: map<string, seq<string>>, slug: string): seq<Part>
    requires slug in attrs
  {
    When(|attrs[slug]| > 0, Part(AttrExists, [Text(slug), Texts(attrs[slug])]))
  }

  function AttrParts(attrs: map<string, seq<string>>, slugs: seq<string>): seq<Part>
    requires forall i :: 0 <= i < |slugs| ==> slugs[i] in attrs
  {
    if |slugs| == 0 then []
    else AttrParts(attrs, slugs[..|slugs| - 1]) + AttrPart(attrs, slugs[|slugs| - 1])
  }

  lemma {:induction false} AttrPartsMean(attrs: map<string, seq<string>>, slugs: seq<string>, row: Row)
    requires forall i :: 0 <= i < |slugs| ==> slugs[i] in attrs
    ensures AllHold(AttrParts(attrs, slugs), row) <==> forall i :: 0 <= i < |slugs| ==> MatchesAttr(attrs, slugs[i],
                                                                                                    row)
    decreases |slugs|
  {
    if |slugs| > 0 {
      var front, last := slugs[..|slugs| - 1], slugs[|slugs| - 1];
      AttrPartsMean(attrs, front, row);
      AllHoldAppend(AttrParts(attrs, front), AttrPart(attrs, last), row);
      AttrPartMeans(attrs, last, row);
      assert forall i :: 0 <= i < |front| ==> front[i] == slugs[i];
    }
  }

  lemma {:induction false} AttrPartMeans(attrs: map<string, seq<string>>, slug: string, row: Row)
    requires slug in attrs
    ensures AllHold(AttrPart(attrs, slug), row) <==> MatchesAttr(attrs, slug, row)
  {
    if |attrs[slug]| > 0 {
      var p := Part(AttrExists, [Text(slug), Texts(attrs[slug])]);
      assert AttrPart(attrs, slug)[0] == p;
      assert Holds(p.test, p.values, row) <==> MatchesAttr(attrs, slug, row);
    }
  }
}
